/** The reply counter of the poll loop (`loop`, paradox/paradox.py). */
module PollLoop {

  /** How one round of status requests ends. */
  datatype Poll =
    | Answered       // every request answered and the answers merged
    | Missing        // StatusRequestException or TimeoutError
    | Disconnected   // ConnectionError
    | Broken         // any other exception, logged and ignored

  /** One turn of the loop: the run state at its head, and how its poll would end. */
  datatype RunState = Stop | Init | Connected | Run | Pause | Error

  datatype Turn = Turn(state: RunState, poll: Poll)

  datatype Exit =
    | Running        // the given turns are over, the loop is not
    | Stopped        // the run state left the loop
    | GaveUp         // "Lost communication with panel"
    | Raised         // ConnectionError

  const LIMIT := 3

  // ---------- what the counter means ----------

  function Weight(p: Poll): int {
    match p
    case Missing => 1
    case Answered => -1
    case Disconnected => 0
    case Broken => 0
  }

  /** Failures minus successes. */
  function Balance(polls: seq<Poll>): int {
    if polls == [] then 0 else Balance(polls[..|polls| - 1]) + Weight(polls[|polls| - 1])
  }

  /** c is the largest balance of a suffix of the history; the empty suffix counts 0. */
  ghost predicate IsMaxSuffix(polls: seq<Poll>, c: int) {
    && (forall k | 0 <= k <= |polls| :: Balance(polls[k..]) <= c)
    && exists k :: 0 <= k <= |polls| && Balance(polls[k..]) == c
  }

  /** Some run of consecutive polls ending within the history has more than LIMIT failures in excess. */
  ghost predicate HasBadWindow(polls: seq<Poll>) {
    exists i, j :: 0 <= i <= j <= |polls| && Balance(polls[i..j]) > LIMIT
  }

  lemma SuffixOfMore(polls: seq<Poll>, p: Poll, k: nat)
    requires k <= |polls|
    ensures Balance((polls + [p])[k..]) == Balance(polls[k..]) + Weight(p)
  {
    var s := (polls + [p])[k..];
    assert s[..|s| - 1] == polls[k..];
  }

  /** One poll moves the maximum as the code moves the counter. */
  lemma MaxSuffixStep(polls: seq<Poll>, c: int, p: Poll)
    requires IsMaxSuffix(polls, c)
    ensures IsMaxSuffix(polls + [p], if c + Weight(p) >= 0 then c + Weight(p) else 0)
  {
    var polls' := polls + [p];
    var c' := if c + Weight(p) >= 0 then c + Weight(p) else 0;
    assert polls'[|polls'|..] == [];
    forall k | 0 <= k <= |polls'|
      ensures Balance(polls'[k..]) <= c'
    {
      if k <= |polls| { SuffixOfMore(polls, p, k); }
    }
    var k :| 0 <= k <= |polls| && Balance(polls[k..]) == c;
    SuffixOfMore(polls, p, k);
    assert Balance(polls'[k..]) == c + Weight(p);
    assert Balance(polls'[|polls'|..]) == 0;
  }

  /** The history contains a bad window exactly if it did before, or the counter just passed the limit. */
  lemma BadWindowStep(polls: seq<Poll>, p: Poll, c': int)
    requires IsMaxSuffix(polls + [p], c')
    ensures HasBadWindow(polls + [p]) <==> HasBadWindow(polls) || c' > LIMIT
  {
    var polls' := polls + [p];
    if HasBadWindow(polls) {
      var i, j :| 0 <= i <= j <= |polls| && Balance(polls[i..j]) > LIMIT;
      assert polls'[i..j] == polls[i..j];
    }
    if c' > LIMIT {
      var k :| 0 <= k <= |polls'| && Balance(polls'[k..]) == c';
      assert polls'[k..|polls'|] == polls'[k..];
    }
    if HasBadWindow(polls') {
      var i, j :| 0 <= i <= j <= |polls'| && Balance(polls'[i..j]) > LIMIT;
      if j <= |polls| {
        assert polls'[i..j] == polls[i..j];
      } else {
        assert polls'[i..j] == polls'[i..];
      }
    }
  }

  // ---------- the loop ----------

  /** The polls made in the given turns: one for each turn whose state is Run. */
  function PollsOf(turns: seq<Turn>): seq<Poll> {
    if turns == [] then []
    else PollsOf(turns[..|turns| - 1]) + if turns[|turns| - 1].state.Run? then [turns[|turns| - 1].poll] else []
  }

  predicate Leaves(turn: Turn) {
    turn.state.Stop? || turn.state.Error?
  }

  /** What is known while the loop runs. */
  ghost predicate Healthy(polls: seq<Poll>, repliesMissing: int) {
    IsMaxSuffix(polls, repliesMissing) && !HasBadWindow(polls) && Disconnected !in polls && repliesMissing <= LIMIT
  }

  /** The `try` statement of one turn. */
  method OnePoll(ghost polls: seq<Poll>, missing: nat, poll: Poll) returns (repliesMissing: nat, exit: Exit)
    requires Healthy(polls, missing)
    ensures IsMaxSuffix(polls + [poll], repliesMissing)
    ensures exit.Running? ==> Healthy(polls + [poll], repliesMissing)
    ensures exit.GaveUp? ==> HasBadWindow(polls + [poll])
    ensures exit.Raised? <==> poll.Disconnected?
    ensures !exit.Stopped?
  {
    repliesMissing, exit := missing, Running;
    MaxSuffixStep(polls, missing, poll);
    match poll {
      case Answered =>
        repliesMissing := if missing - 1 >= 0 then missing - 1 else 0;
      case Disconnected =>
        exit := Raised;
      case Missing =>
        repliesMissing := missing + 1;
        if repliesMissing > LIMIT {
          exit := GaveUp;
        }
      case Broken =>
    }
    BadWindowStep(polls, poll, repliesMissing);
  }

  lemma PollsOfMore(turns: seq<Turn>, n: nat)
    requires n < |turns|
    ensures PollsOf(turns[..n + 1]) ==
            if turns[n].state.Run? then PollsOf(turns[..n]) + [turns[n].poll] else PollsOf(turns[..n])
  {
    assert turns[..n + 1][..n] == turns[..n];
    assert PollsOf(turns[..n]) + [] == PollsOf(turns[..n]);
  }

  /** How the loop ends, n turns in. */
  ghost predicate Ended(turns: seq<Turn>, n: nat, exit: Exit, repliesMissing: nat) {
    && n <= |turns| && (forall k | 0 <= k < n :: !Leaves(turns[k]))
    && IsMaxSuffix(PollsOf(turns[..n]), repliesMissing)
    && match exit
       case Running => Healthy(PollsOf(turns[..n]), repliesMissing)
       case Stopped => n < |turns| && Leaves(turns[n]) && Healthy(PollsOf(turns[..n]), repliesMissing)
       case GaveUp => n > 0 && HasBadWindow(PollsOf(turns[..n])) && !HasBadWindow(PollsOf(turns[..n - 1]))
       case Raised => n > 0 && turns[n - 1] == Turn(Run, Disconnected) && !HasBadWindow(PollsOf(turns[..n - 1]))
  }

  /** One turn of the loop. */
  method OneTurn(turns: seq<Turn>, n: nat, missing: nat) returns (n': nat, exit: Exit, repliesMissing: nat)
    requires n < |turns| && Ended(turns, n, Running, missing)
    ensures Ended(turns, n', exit, repliesMissing)
    ensures n <= n' && (exit.Running? ==> n' == n + 1)
  {
    n', exit, repliesMissing := n, Running, missing;
    var turn := turns[n];
    if Leaves(turn) {
      exit := Stopped;
      return;
    }
    n' := n + 1;
    PollsOfMore(turns, n);
    if turn.state.Run? {
      repliesMissing, exit := OnePoll(PollsOf(turns[..n]), missing, turn.poll);
    }
  }

  /** `loop` over the given turns. It gives up exactly at the first poll that completes a window of
      consecutive polls with four more failures than successes. */
  method Loop(turns: seq<Turn>) returns (exit: Exit, n: nat, repliesMissing: nat)
    ensures Ended(turns, n, exit, repliesMissing)
    ensures exit.Running? ==> n == |turns|
  {
    repliesMissing, n, exit := 0, 0, Running;
    NoPolls();
    while n < |turns| && exit.Running?
      invariant Ended(turns, n, exit, repliesMissing)
      decreases |turns| - n, exit.Running?
    {
      n, exit, repliesMissing := OneTurn(turns, n, repliesMissing);
    }
  }

  /** Read the other way: the loop is still healthy after some turns exactly when no window of polls
      so far has four more failures than successes. */
  lemma GivesUpExactlyAtBadWindow(turns: seq<Turn>, n: nat, exit: Exit, repliesMissing: nat)
    requires Ended(turns, n, exit, repliesMissing) && !exit.Raised?
    ensures exit.GaveUp? <==> HasBadWindow(PollsOf(turns[..n]))
    ensures exit.GaveUp? <==> repliesMissing > LIMIT
  {
    if exit.GaveUp? {
      var polls, front := PollsOf(turns[..n]), PollsOf(turns[..n - 1]);
      PollsOfMore(turns, n - 1);
      BadWindowStep(front, turns[n - 1].poll, repliesMissing);
    }
  }

  lemma NoPolls()
    ensures IsMaxSuffix([], 0) && !HasBadWindow([])
  {
    var none: seq<Poll> := [];
    assert none[0..] == [];
    forall i, j | 0 <= i <= j <= |none|
      ensures Balance(none[i..j]) == 0
    {
      assert none[i..j] == [];
    }
  }
}
