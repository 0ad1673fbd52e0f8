/**
 The driver's side of the control stream: a pushback list in front of an inbox queue.

 A check that waits for one message reads others on the way and puts them back. Reading takes
 from the pushback list first; putting back appends to it, and only once the wait is over, or the
 wait would read its own returns for ever. Waiting is wall-clock time in the harness; here the
 messages that arrive while the k-th read waits are a parameter, and their number is how many
 reads fit before the deadline.
 */
module DriverInbox {
  import opened Wrappers

  /** `Closed` is the marker the reader thread leaves when the stream ends. */
  datatype Msg =
    | ActionStatus(actionId: string, state: nat, tag: int)
    | CommandResult(commandId: nat, unsupported: bool, tag: int)
    | Other(tag: int)
    | Closed

  /** Everything there is to read once the first `k` rounds of arrivals have reached the inbox. */
  function Arrived(start: seq<Msg>, rounds: seq<seq<Msg>>, k: nat): seq<Msg>
    requires k <= |rounds|
  {
    if k == 0 then start else Arrived(start, rounds, k - 1) + rounds[k - 1]
  }

  function Statuses(ms: seq<Msg>): seq<Msg> {
    if ms == [] then []
    else Statuses(ms[..|ms| - 1]) + (if ms[|ms| - 1].ActionStatus? then [ms[|ms| - 1]] else [])
  }

  lemma StatusesAppend(ms: seq<Msg>, m: Msg)
    ensures Statuses(ms + [m]) == Statuses(ms) + (if m.ActionStatus? then [m] else [])
  {
  }

  lemma {:induction false} StatusesConcat(a: seq<Msg>, b: seq<Msg>)
    ensures Statuses(a + b) == Statuses(a) + Statuses(b)
    decreases |b|
  {
    if b == [] {
      assert a + b == a;
    } else {
      StatusesConcat(a, b[..|b| - 1]);
      assert (a + b)[..|a + b| - 1] == a + b[..|b| - 1];
    }
  }

  lemma {:induction false} StatusesOfStatuses(a: seq<Msg>)
    ensures Statuses(Statuses(a)) == Statuses(a)
  {
    if a != [] {
      var last := a[|a| - 1];
      StatusesOfStatuses(a[..|a| - 1]);
      if last.ActionStatus? {
        StatusesAppend(Statuses(a[..|a| - 1]), last);
      } else {
        assert Statuses(a) == Statuses(a[..|a| - 1]);
      }
    }
  }

  // ---- What a wait leaves unread ----

  /** The part of the pushback list `p` that reading `n` messages leaves there. */
  function Rest(p: seq<Msg>, n: nat): seq<Msg> {
    if n <= |p| then p[n..] else []
  }

  /** The part of the queue left by reading `n` of the messages `u`, of which the first `p` were pushed back. */
  function Tail(p: seq<Msg>, u: seq<Msg>, n: nat): seq<Msg>
    requires |p| <= |u| && n <= |u|
  {
    if n <= |p| then u[|p|..] else u[n..]
  }

  /** What is unread once `n` of `u` were read and `back` was put back. */
  function Unread(p: seq<Msg>, u: seq<Msg>, n: nat, back: seq<Msg>): seq<Msg>
    requires |p| <= |u| && n <= |u|
  {
    Rest(p, n) + back + Tail(p, u, n)
  }

  lemma Halves(p: seq<Msg>, u: seq<Msg>, n: nat)
    requires p <= u && n <= |u|
    ensures Rest(p, n) + Tail(p, u, n) == u[n..]
  {
  }

  lemma Regroup(a: seq<Msg>, b: seq<Msg>, c: seq<Msg>)
    ensures multiset(a + b + c) == multiset(b + (a + c))
    ensures a == [] ==> a + b + c == b + (a + c)
  {
  }

  /** A wait that puts back the first `m` of the `n` it read loses exactly the others. */
  lemma PutBackKeepsTheRest(p: seq<Msg>, u: seq<Msg>, n: nat, m: nat)
    requires p <= u && m <= n <= |u|
    ensures multiset(Unread(p, u, n, u[..m])) == multiset(u) - multiset(u[m..n])
  {
    Regroup(Rest(p, n), u[..m], Tail(p, u, n));
    Halves(p, u, n);
    Thirds(u, m, n);
  }

  lemma Thirds(u: seq<Msg>, m: nat, n: nat)
    requires m <= n <= |u|
    ensures multiset(u[..m] + u[n..]) == multiset(u) - multiset(u[m..n])
  {
    assert u == u[..m] + u[m..n] + u[n..];
  }

  ghost predicate Distinct(u: seq<Msg>) {
    forall i: nat, j: nat :: i < j < |u| ==> u[i] != u[j]
  }

  /**
   Whether the survivors keep their order. They do when nothing was put back or the reading went
   past the pushback list; otherwise the rest of that list overtakes what was put back behind it,
   which shows wherever the messages can be told apart.
   */
  lemma PutBackKeepsOrderIff(p: seq<Msg>, u: seq<Msg>, n: nat, m: nat)
    requires p <= u && m <= n <= |u|
    ensures m == 0 || n >= |p| ==> Unread(p, u, n, u[..m]) == u[..m] + u[n..]
    ensures Distinct(u) ==> (Unread(p, u, n, u[..m]) == u[..m] + u[n..] <==> m == 0 || n >= |p|)
  {
    Halves(p, u, n);
    Regroup(Rest(p, n), u[..m], Tail(p, u, n));
    if m == 0 {
      assert Rest(p, n) + [] == Rest(p, n);
    } else if n < |p| {
      assert Unread(p, u, n, u[..m])[0] == u[n] && (u[..m] + u[n..])[0] == u[0];
    }
  }

  lemma StatusesOfUnread(p: seq<Msg>, u: seq<Msg>, n: nat)
    requires |p| <= |u| && n <= |u|
    ensures Statuses(Unread(p, u, n, Statuses(u[..n])))
      == Statuses(Rest(p, n)) + Statuses(u[..n]) + Statuses(Tail(p, u, n))
  {
    StatusesConcat(Rest(p, n) + Statuses(u[..n]), Tail(p, u, n));
    StatusesConcat(Rest(p, n), Statuses(u[..n]));
    StatusesOfStatuses(u[..n]);
  }

  lemma StatusesOfAll(p: seq<Msg>, u: seq<Msg>, n: nat)
    requires p <= u && n <= |u|
    ensures Statuses(u) == Statuses(u[..n]) + (Statuses(Rest(p, n)) + Statuses(Tail(p, u, n)))
  {
    var front, back := u[..n], u[n..];
    assert u == front + back;
    StatusesConcat(front, back);
    Halves(p, u, n);
    StatusesConcat(Rest(p, n), Tail(p, u, n));
  }

  /** A wait for a result puts back the statuses among what it read, so no status is lost. */
  lemma StatusesSurvive(p: seq<Msg>, u: seq<Msg>, n: nat)
    requires p <= u && n <= |u|
    ensures var after := Unread(p, u, n, Statuses(u[..n]));
            && multiset(Statuses(after)) == multiset(Statuses(u))
            && (n >= |p| ==> Statuses(after) == Statuses(u))
  {
    StatusesOfUnread(p, u, n);
    StatusesOfAll(p, u, n);
    Regroup(Statuses(Rest(p, n)), Statuses(u[..n]), Statuses(Tail(p, u, n)));
    assert n >= |p| ==> Rest(p, n) == [];
  }

  function Sum(ms: seq<Msg>, size: Msg -> nat): nat {
    if ms == [] then 0 else Sum(ms[..|ms| - 1], size) + size(ms[|ms| - 1])
  }

  lemma SumAppend(ms: seq<Msg>, m: Msg, size: Msg -> nat)
    ensures Sum(ms + [m], size) == Sum(ms, size) + size(m)
  {
  }

  /** A total is the total of its parts. */
  lemma {:induction false} SumConcat(a: seq<Msg>, b: seq<Msg>, size: Msg -> nat)
    ensures Sum(a + b, size) == Sum(a, size) + Sum(b, size)
    decreases |b|
  {
    if b == [] {
      assert a + b == a;
    } else {
      SumConcat(a, b[..|b| - 1], size);
      assert (a + b)[..|a + b| - 1] == a + b[..|b| - 1];
    }
  }

  /** Arrivals extend what is unread and leave what was read alone. */
  lemma Grow(u: seq<Msg>, arriving: seq<Msg>, n: nat)
    requires n <= |u|
    ensures (u + arriving)[..n] == u[..n] && (u + arriving)[n..] == u[n..] + arriving
  {
  }

  lemma {:induction false} ArrivedGrows(start: seq<Msg>, rounds: seq<seq<Msg>>, k: nat)
    requires k <= |rounds|
    ensures start <= Arrived(start, rounds, k)
  {
    if k > 0 {
      ArrivedGrows(start, rounds, k - 1);
    }
  }

  lemma FrontOf(held: seq<Msg>, read: seq<Msg>, u: seq<Msg>, n: nat)
    requires held <= read && n <= |u| && read == u[..n]
    ensures held == u[..|held|] && |read| == n
    ensures |held| < n ==> u[|held|] == read[|held|]
  {
  }

  lemma Next(u: seq<Msg>, n: nat)
    requires n < |u|
    ensures u[..n + 1] == u[..n] + [u[n]] && u[n..] == [u[n]] + u[n + 1..] && u[n..][0] == u[n]
      && u[n..][1..] == u[n + 1..]
  {
  }

  // ---- The driver ----

  predicate IsStatusOf(m: Msg, actionId: string, states: Option<set<nat>>) {
    m.ActionStatus? && m.actionId == actionId && (states.Some? ==> m.state in states.value)
  }

  predicate NoneMatch(ms: seq<Msg>, actionId: string, states: Option<set<nat>>) {
    forall i :: 0 <= i < |ms| ==> !IsStatusOf(ms[i], actionId, states) && ms[i] != Closed
  }

  predicate IsResultOf(m: Msg, commandId: nat) {
    m.CommandResult? && m.commandId == commandId
  }

  predicate NoResult(ms: seq<Msg>, commandId: nat) {
    forall i :: 0 <= i < |ms| ==> !IsResultOf(ms[i], commandId) && ms[i] != Closed
  }

  /** The command arm an answer declines, if it declines one. */
  function Declines(sentArms: map<nat, string>, m: Msg): set<string> {
    if m.CommandResult? && m.unsupported && m.commandId in sentArms && sentArms[m.commandId] != ""
    then {sentArms[m.commandId]} else {}
  }

  function DeclinedBy(sentArms: map<nat, string>, found: Result<Msg, ReadError>): set<string> {
    if found.Ok? then Declines(sentArms, found.value) else {}
  }

  function Min(a: nat, b: nat): nat {
    if a < b then a else b
  }

  datatype ReadError = Empty | StreamClosed

  /** How a wait for a result that read `read`, out of `u`, ended. */
  ghost predicate Ended(found: Result<Msg, ReadError>, read: seq<Msg>, u: seq<Msg>, commandId: nat) {
    if found == Err(Empty) then read == u && NoResult(u, commandId) else Stopped(found, read, commandId)
  }

  ghost predicate Stopped(found: Result<Msg, ReadError>, read: seq<Msg>, commandId: nat) {
    match found
    case Ok(msg) => IsResultOf(msg, commandId) && StoppedAt(read, msg, commandId)
    case Err(e) => e == StreamClosed && StoppedAt(read, Closed, commandId)
  }

  ghost predicate StoppedAt(read: seq<Msg>, msg: Msg, commandId: nat) {
    read != [] && read[|read| - 1] == msg && NoResult(read[..|read| - 1], commandId)
  }

  lemma EndedHow(found: Result<Msg, ReadError>, u: seq<Msg>, n: nat, commandId: nat)
    requires n <= |u| && Ended(found, u[..n], u, commandId)
    ensures found.Ok? ==>
      n > 0 && u[n - 1] == found.value && found.value.CommandResult? && found.value.commandId == commandId
    ensures found == Err(StreamClosed) ==> n > 0 && u[n - 1] == Closed
    ensures found == Err(Empty) ==> n == |u|
    ensures forall j :: 0 <= j < (if found == Err(Empty) then n else n - 1) ==>
              u[j] != Closed && (u[j].CommandResult? ==> u[j].commandId != commandId)
  {
    var read := u[..n];
    if found == Err(Empty) {
      assert read == u;
    } else {
      forall j | 0 <= j < n - 1
        ensures u[j] != Closed && (u[j].CommandResult? ==> u[j].commandId != commandId)
      {
        assert read[..n - 1][j] == u[j];
      }
    }
  }

  lemma NoneMatchSays(ms: seq<Msg>, actionId: string, states: Option<set<nat>>)
    requires NoneMatch(ms, actionId, states)
    ensures forall x <- ms ::
              && x != Closed
              && (x.ActionStatus? && x.actionId == actionId ==> states.Some? && x.state !in states.value)
  {
  }

  lemma NoneMatchStep(ms: seq<Msg>, m: Msg, actionId: string, states: Option<set<nat>>)
    requires NoneMatch(ms, actionId, states) && !IsStatusOf(m, actionId, states) && m != Closed
    ensures NoneMatch(ms + [m], actionId, states)
  {
  }

  lemma StopsAt(read: seq<Msg>, msg: Msg, commandId: nat)
    requires NoResult(read, commandId)
    ensures StoppedAt(read + [msg], msg, commandId)
    ensures !IsResultOf(msg, commandId) && msg != Closed ==> NoResult(read + [msg], commandId)
  {
  }

  class Driver {
    var pushback: seq<Msg>
    var inbox: seq<Msg>
    var sentArms: map<nat, string>
    var declinedArms: set<string>

    constructor (sentArms: map<nat, string>)
      ensures pushback == [] && inbox == [] && declinedArms == {} && this.sentArms == sentArms
    {
      pushback, inbox, declinedArms := [], [], {};
      this.sentArms := sentArms;
    }

    /**
     One read, while `arriving` reaches the queue: the pushback list first, the queue second. The
     ghost arguments name the messages `u` the wait has seen so far, of which `n` have been read.
     */
    method Read(arriving: seq<Msg>, ghost p: seq<Msg>, ghost u: seq<Msg>, ghost n: nat) returns (m: Option<Msg>)
      requires p <= u && n <= |u| && pushback == Rest(p, n) && inbox == Tail(p, u, n)
      modifies this`pushback, this`inbox
      ensures m.Some? <==> n < |u + arriving|
      ensures m.Some? ==>
        m.value == (u + arriving)[n] && pushback == Rest(p, n + 1) && inbox == Tail(p, u + arriving, n + 1)
      ensures m.None? ==> pushback == Rest(p, n) && inbox == Tail(p, u + arriving, n)
    {
      inbox := inbox + arriving;
      assert inbox == Tail(p, u + arriving, n);
      if pushback != [] {
        m, pushback := Some(pushback[0]), pushback[1..];
      } else if inbox != [] {
        Next(u + arriving, n);
        m, inbox := Some(inbox[0]), inbox[1..];
      } else {
        m := None;
      }
    }

    /** Of what had arrived by round k, `read` has been read; the pushback list was `p` at first. */
    ghost predicate Reading(p: seq<Msg>, start: seq<Msg>, rounds: seq<seq<Msg>>, k: nat, n: nat, read: seq<Msg>)
      requires k <= |rounds|
      reads this`pushback, this`inbox
    {
      var u := Arrived(start, rounds, k);
      p <= u && n <= |u| && pushback == Rest(p, n) && inbox == Tail(p, u, n) && read == u[..n]
    }

    /** A read of a wait's loop: the next round's arrivals while there are any, then none. */
    method ReadRound(rounds: seq<seq<Msg>>, k: nat, ghost p: seq<Msg>, ghost start: seq<Msg>, ghost n: nat,
        ghost read: seq<Msg>)
      returns (m: Option<Msg>, k': nat)
      requires k <= |rounds| && Reading(p, start, rounds, k, n, read)
      modifies this`pushback, this`inbox
      ensures k' == Min(k + 1, |rounds|)
      ensures m.Some? ==> Reading(p, start, rounds, k', n + 1, read + [m.value])
      ensures m.None? ==> Reading(p, start, rounds, k', n, read) && read == Arrived(start, rounds, k')
    {
      ghost var u := Arrived(start, rounds, k);
      var arriving: seq<Msg> := [];
      k' := k;
      if k < |rounds| {
        arriving, k' := rounds[k], k + 1;
      }
      assert Arrived(start, rounds, k') == u + arriving;
      m := Read(arriving, p, u, n);
      Grow(u, arriving, n);
      if m.Some? { Next(u + arriving, n); }
    }

    /** The loop of `_await_action_status`: it ends with the first `n` read and the first `|held|` of them held. */
    method ReadToStatus(actionId: string, states: Option<set<nat>>, rounds: seq<seq<Msg>>, ghost p: seq<Msg>,
        ghost start: seq<Msg>)
      returns (found: Option<Msg>, held: seq<Msg>, ghost used: nat, ghost n: nat, ghost read: seq<Msg>)
      requires p == pushback && start == pushback + inbox
      modifies this`pushback, this`inbox
      ensures used <= |rounds| && Reading(p, start, rounds, used, n, read)
      ensures Min(used, |start|) <= n && NoneMatch(held, actionId, states)
      ensures match found
              case Some(msg) => read == held + [msg] && IsStatusOf(msg, actionId, states)
              case None => read == held + [Closed] || (read == held && used == |rounds|)
    {
      read, held := [], [];
      found, used, n := None, 0, 0;
      for k := 0 to |rounds|
        invariant used == k && read == held && Reading(p, start, rounds, k, n, read)
        invariant Min(k, |start|) <= n && NoneMatch(held, actionId, states)
      {
        var msg, _ := ReadRound(rounds, k, p, start, n, read);
        used := k + 1;
        if msg.Some? {
          n, read := n + 1, read + [msg.value];
          if msg.value == Closed {
            return;
          }
          if IsStatusOf(msg.value, actionId, states) {
            return msg, held, used, n, read;
          }
          NoneMatchStep(held, msg.value, actionId, states);
          held := held + [msg.value];
        } else {
          ArrivedGrows(start, rounds, k + 1);
        }
      }
    }

    /** `_await_action_status`. A closed stream and a passed deadline both answer None. */
    method AwaitActionStatus(actionId: string, states: Option<set<nat>>, rounds: seq<seq<Msg>>)
      returns (found: Option<Msg>, ghost used: nat, ghost n: nat, ghost m: nat)
      modifies this`pushback, this`inbox
      ensures used <= |rounds|
      ensures var p, u := old(pushback), Arrived(old(pushback + inbox), rounds, used);
              && m <= n <= |u| && Min(used, |old(pushback + inbox)|) <= n && p <= u
              && multiset(pushback + inbox) == multiset(u) - multiset(u[m..n])
              && pushback == Rest(p, n) + u[..m] && inbox == Tail(p, u, n)
              && NoneMatch(u[..m], actionId, states)
              && match found
                 case Some(msg) => n == m + 1 && u[m] == msg && IsStatusOf(msg, actionId, states)
                 case None => (n == m + 1 && u[m] == Closed) || (n == m && used == |rounds|)
      ensures found.Some? ==>
                && found.value.ActionStatus? && found.value.actionId == actionId
                && (states.None? || found.value.state in states.value)
      ensures forall x <- Arrived(old(pushback + inbox), rounds, used)[..m] ::
                && x != Closed
                && (x.ActionStatus? && x.actionId == actionId ==> states.Some? && x.state !in states.value)
    {
      ghost var start := pushback + inbox;
      var held;
      ghost var read;
      found, held, used, n, read := ReadToStatus(actionId, states, rounds, pushback, start);
      m := |held|;
      NoneMatchSays(held, actionId, states);
      FrontOf(held, read, Arrived(start, rounds, used), n);
      PutBackKeepsTheRest(old(pushback), Arrived(start, rounds, used), n, m);
      pushback := pushback + held;
    }

    /** Remember the arm an `unsupported=true` answer declined. */
    method NoteDecline(result: Msg)
      requires result.CommandResult?
      modifies this`declinedArms
      ensures declinedArms == old(declinedArms) + Declines(sentArms, result)
      ensures forall arm :: arm in declinedArms <==>
                || arm in old(declinedArms)
                || (result.unsupported && result.commandId in sentArms && sentArms[result.commandId] == arm != "")
    {
      if result.unsupported && result.commandId in sentArms && sentArms[result.commandId] != "" {
        declinedArms := declinedArms + {sentArms[result.commandId]};
      }
    }

    /** What `_await_result` does with the message it has read, after `read`. */
    method Weigh(msg: Msg, commandId: nat, held: seq<Msg>, ghost read: seq<Msg>)
      returns (found: Option<Result<Msg, ReadError>>, held': seq<Msg>)
      requires NoResult(read, commandId) && held == Statuses(read)
      modifies this`declinedArms
      ensures held' == Statuses(read + [msg])
      ensures found.None? ==> NoResult(read + [msg], commandId) && declinedArms == old(declinedArms)
      ensures found.Some? ==>
                && Stopped(found.value, read + [msg], commandId)
                && declinedArms == old(declinedArms) + DeclinedBy(sentArms, found.value)
    {
      StatusesAppend(read, msg);
      StopsAt(read, msg, commandId);
      found, held' := None, held;
      if msg == Closed {
        found := Some(Err(StreamClosed));
      } else if IsResultOf(msg, commandId) {
        NoteDecline(msg);
        found := Some(Ok(msg));
      } else if msg.ActionStatus? {
        held' := held + [msg];
      }
    }

    /** One turn of `_await_result`: a message is read and weighed, or there is none. */
    method ResultRound(commandId: nat, rounds: seq<seq<Msg>>, k: nat, held: seq<Msg>, ghost p: seq<Msg>,
        ghost start: seq<Msg>, ghost n: nat, ghost read: seq<Msg>)
      returns (found: Option<Result<Msg, ReadError>>, held': seq<Msg>, k': nat, ghost n': nat, ghost read': seq<Msg>)
      requires k <= |rounds| && Reading(p, start, rounds, k, n, read)
      requires held == Statuses(read) && NoResult(read, commandId)
      modifies this`pushback, this`inbox, this`declinedArms
      ensures k' == Min(k + 1, |rounds|) && Reading(p, start, rounds, k', n', read') && held' == Statuses(read')
      ensures found.None? ==> n' == n + 1 && NoResult(read', commandId) && declinedArms == old(declinedArms)
      ensures found.Some? ==>
                && Ended(found.value, read', Arrived(start, rounds, k'), commandId)
                && declinedArms == old(declinedArms) + DeclinedBy(sentArms, found.value)
    {
      var msg;
      msg, k' := ReadRound(rounds, k, p, start, n, read);
      n', read', held' := n, read, held;
      if msg.None? {
        return Some(Err(Empty)), held', k', n', read';
      }
      found, held' := Weigh(msg.value, commandId, held, read);
      n', read' := n + 1, read + [msg.value];
    }

    /** The loop of `_await_result`: it ends with `read` read and the statuses among it held. */
    method ReadToResult(commandId: nat, rounds: seq<seq<Msg>>, ghost p: seq<Msg>, ghost start: seq<Msg>)
      returns (found: Result<Msg, ReadError>, held: seq<Msg>, ghost used: nat, ghost n: nat, ghost read: seq<Msg>)
      requires p == pushback && start == pushback + inbox
      modifies this`pushback, this`inbox, this`declinedArms
      ensures used <= |rounds| && Reading(p, start, rounds, used, n, read) && held == Statuses(read)
      ensures Ended(found, read, Arrived(start, rounds, used), commandId)
      ensures declinedArms == old(declinedArms) + DeclinedBy(sentArms, found)
    {
      read, held := [], [];
      var done, k := false, 0;
      found, used, n := Err(Empty), 0, 0;
      while !done
        invariant k <= |rounds| && used == k && Reading(p, start, rounds, k, n, read) && held == Statuses(read)
        invariant !done ==> NoResult(read, commandId) && declinedArms == old(declinedArms)
        invariant done ==> Ended(found, read, Arrived(start, rounds, k), commandId)
        invariant done ==> declinedArms == old(declinedArms) + DeclinedBy(sentArms, found)
        decreases !done, |rounds| - k, |Arrived(start, rounds, k)| - n
      {
        var r;
        r, held, k, n, read := ResultRound(commandId, rounds, k, held, p, start, n, read);
        used := k;
        if r.Some? {
          done, found := true, r.value;
        }
      }
    }

    /**
     `_await_result`. There is no deadline: every turn reads one message or raises, and once the
     arrivals in `rounds` are over the inbox is finite, so the wait ends. What it read is dropped,
     except the statuses, which go back whichever way it ends.
     */
    method AwaitResult(commandId: nat, rounds: seq<seq<Msg>>)
      returns (found: Result<Msg, ReadError>, ghost used: nat, ghost n: nat)
      modifies this`pushback, this`inbox, this`declinedArms
      ensures used <= |rounds|
      ensures declinedArms == old(declinedArms) + DeclinedBy(sentArms, found)
      ensures var p, u := old(pushback), Arrived(old(pushback + inbox), rounds, used);
              && n <= |u| && p <= u
              && pushback == Rest(p, n) + Statuses(u[..n]) && inbox == Tail(p, u, n)
              && multiset(Statuses(pushback + inbox)) == multiset(Statuses(u))
              && Ended(found, u[..n], u, commandId)
      ensures var u := Arrived(old(pushback + inbox), rounds, used);
              && n <= |u|
              && (found.Ok? ==>
                    && n > 0 && u[n - 1] == found.value
                    && found.value.CommandResult? && found.value.commandId == commandId)
              && (found == Err(StreamClosed) ==> n > 0 && u[n - 1] == Closed)
              && (found == Err(Empty) ==> n == |u|)
              && forall j :: 0 <= j < (if found == Err(Empty) then n else n - 1) ==>
                   u[j] != Closed && (u[j].CommandResult? ==> u[j].commandId != commandId)
      ensures forall arm :: arm in declinedArms <==>
                || arm in old(declinedArms)
                || (found.Ok? && found.value.unsupported && commandId in sentArms && sentArms[commandId] == arm != "")
    {
      var held;
      ghost var read;
      ghost var start := pushback + inbox;
      found, held, used, n, read := ReadToResult(commandId, rounds, pushback, start);
      StatusesSurvive(old(pushback), Arrived(start, rounds, used), n);
      EndedHow(found, Arrived(start, rounds, used), n, commandId);
      pushback := pushback + held;
    }

    /**
     `_measure_control_bytes` reads the queue, not the pushback list, and puts back all it read,
     close marker included: the same messages stay unread, in the same order.
     */
    method MeasureControlBytes(rounds: seq<seq<Msg>>, size: Msg -> nat)
      returns (total: nat, ghost used: nat, ghost n: nat)
      modifies this`pushback, this`inbox
      ensures used <= |rounds|
      ensures var r := Arrived(old(inbox), rounds, used);
              && pushback + inbox == old(pushback) + r
              && n <= |r| && total == Sum(r[..n], size) && Closed !in r[..n]
              && (used == |rounds| || (n < |r| && r[n] == Closed))
    {
      var p := pushback;
      ghost var r := inbox;
      var held := [];
      total, used, n := 0, 0, 0;
      for k := 0 to |rounds|
        invariant used == k && r == Arrived(old(inbox), rounds, k) && n <= |r|
        invariant pushback == p && inbox == r[n..] && held == r[..n]
        invariant total == Sum(held, size) && Closed !in held
      {
        Grow(r, rounds[k], n);
        inbox := inbox + rounds[k];
        r, used := r + rounds[k], k + 1;
        if inbox != [] {
          Next(r, n);
          var msg := inbox[0];
          inbox := inbox[1..];
          if msg == Closed {
            pushback := pushback + held + [msg];
            Back(p, r, n + 1);
            return;
          }
          SumAppend(held, msg, size);
          total := total + size(msg);
          held := held + [msg];
          n := n + 1;
        }
      }
      pushback := pushback + held;
      Back(p, r, n);
    }
  }

  lemma Back(p: seq<Msg>, r: seq<Msg>, n: nat)
    requires n <= |r|
    ensures p + r[..n] + r[n..] == p + r
    ensures n > 0 ==> p + r[..n - 1] + [r[n - 1]] + r[n..] == p + r
  {
  }
}
