/**
  One drain loop of the emission pass, as a function. Entries are visited in
  index order; a clean entry, or a dirty one that has no event, is passed
  over; a dirty entry's event is offered to the sink; an accepted event clears
  the entry's flag and the loop goes on, a refused one ends the loop with
  that entry and every later one left as they were.

  The sink is an oracle: its answer to the k-th write of the block is
  `sink[k]`, and a sink whose answers have run out refuses.
 */
module Emission {
  import opened Wrappers
  import opened Midi

  /** One write offered to the sink: the entry it came from, the event, and the sink's answer. */
  datatype Attempt = Attempt(index: nat, event: MidiEvent, accepted: bool)

  /** The flags a loop leaves behind and the writes it offered, in order. */
  datatype Pass = Pass(flags: seq<bool>, attempts: seq<Attempt>)

  /** The sink's answer to the k-th write of the block. */
  predicate Accepts(sink: seq<bool>, k: nat) {
    k < |sink| && sink[k]
  }

  /**
    The loop from entry `i` on, with `k` writes already offered this block.
    `events[j]` is the event entry j becomes, None when it is skipped.
   */
  function Drain(events: seq<Option<MidiEvent>>, flags: seq<bool>, sink: seq<bool>, i: nat, k: nat): (p: Pass)
    requires |events| == |flags| && i <= |flags|
    ensures |p.flags| == |flags|
    ensures forall j :: 0 <= j < i ==> p.flags[j] == flags[j]
    ensures |p.attempts| <= |flags| - i
    decreases |flags| - i
  {
    if i == |flags| then Pass(flags, [])
    else if !flags[i] || events[i].None? then Drain(events, flags, sink, i + 1, k)
    else if Accepts(sink, k) then
      var rest := Drain(events, flags[i := false], sink, i + 1, k + 1);
      Pass(rest.flags, [Attempt(i, events[i].value, true)] + rest.attempts)
    else Pass(flags, [Attempt(i, events[i].value, false)])
  }

  /** Whether some accepted write came from entry j. */
  predicate Written(attempts: seq<Attempt>, j: nat) {
    exists t :: 0 <= t < |attempts| && attempts[t].index == j && attempts[t].accepted
  }

  /** The loop stopped because the sink refused its last write. */
  predicate EndedByRefusal(attempts: seq<Attempt>) {
    |attempts| > 0 && !attempts[|attempts| - 1].accepted
  }

  /** The events of the accepted writes, in order: what reaches the output. */
  function Sent(attempts: seq<Attempt>): (out: seq<MidiEvent>)
    ensures |out| <= |attempts|
  {
    if attempts == [] then []
    else (if attempts[0].accepted then [attempts[0].event] else []) + Sent(attempts[1..])
  }

  /** The events of the dirty entries from `i` on that have one, in entry order. */
  function Pending(events: seq<Option<MidiEvent>>, flags: seq<bool>, i: nat): seq<MidiEvent>
    requires |events| == |flags| && i <= |flags|
    decreases |flags| - i
  {
    if i == |flags| then []
    else (if flags[i] && events[i].Some? then [events[i].value] else []) + Pending(events, flags, i + 1)
  }

  /** The first step of a loop from entry `i`: a skip, the end, or an offered write. */
  lemma DrainStep(events: seq<Option<MidiEvent>>, flags: seq<bool>, sink: seq<bool>, i: nat, k: nat)
    requires |events| == |flags| && i < |flags|
    ensures !flags[i] || events[i].None? ==>
      Drain(events, flags, sink, i, k) == Drain(events, flags, sink, i + 1, k)
    ensures flags[i] && events[i].Some? && Accepts(sink, k) ==>
      var rest := Drain(events, flags[i := false], sink, i + 1, k + 1);
      Drain(events, flags, sink, i, k) == Pass(rest.flags, [Attempt(i, events[i].value, true)] + rest.attempts)
    ensures flags[i] && events[i].Some? && !Accepts(sink, k) ==>
      Drain(events, flags, sink, i, k) == Pass(flags, [Attempt(i, events[i].value, false)])
  {
  }

  lemma WrittenCons(a: Attempt, rest: seq<Attempt>, j: nat)
    ensures Written([a] + rest, j) <==> (a.index == j && a.accepted) || Written(rest, j)
  {
    var s := [a] + rest;
    if Written(rest, j) {
      var t :| 0 <= t < |rest| && rest[t].index == j && rest[t].accepted;
      assert s[t + 1] == rest[t];
    }
    if Written(s, j) {
      var t :| 0 <= t < |s| && s[t].index == j && s[t].accepted;
      assert s[0] == a;
      if t > 0 {
        assert rest[t - 1] == s[t];
      }
    }
  }

  /**
    Every write comes from a dirty entry at or after `i` that has an event,
    in strictly increasing entry order (so at most one write per entry); the
    t-th write gets the sink's (k+t)-th answer, and only the last can be refused.
   */
  lemma {:induction false} DrainAttempts(events: seq<Option<MidiEvent>>, flags: seq<bool>, sink: seq<bool>, i: nat, k: nat)
    requires |events| == |flags| && i <= |flags|
    ensures forall t :: 0 <= t < |Drain(events, flags, sink, i, k).attempts| ==>
      var a := Drain(events, flags, sink, i, k).attempts[t];
      i <= a.index < |flags| && flags[a.index] && events[a.index] == Some(a.event) &&
      a.accepted == Accepts(sink, k + t)
    ensures forall t, u :: 0 <= t < u < |Drain(events, flags, sink, i, k).attempts| ==>
      Drain(events, flags, sink, i, k).attempts[t].index < Drain(events, flags, sink, i, k).attempts[u].index
    ensures forall t :: 0 <= t < |Drain(events, flags, sink, i, k).attempts| - 1 ==> Drain(events, flags, sink, i, k).attempts[t].accepted
    decreases |flags| - i
  {
    if i < |flags| {
      DrainStep(events, flags, sink, i, k);
      if !flags[i] || events[i].None? {
        DrainAttempts(events, flags, sink, i + 1, k);
      } else if Accepts(sink, k) {
        var rest := Drain(events, flags[i := false], sink, i + 1, k + 1);
        var p := Drain(events, flags, sink, i, k);
        DrainAttempts(events, flags[i := false], sink, i + 1, k + 1);
        assert forall t :: 0 < t < |p.attempts| ==> p.attempts[t] == rest.attempts[t - 1];
      }
    }
  }

  /** DrainAttempts for the t-th write alone. */
  lemma DrainAttemptAt(events: seq<Option<MidiEvent>>, flags: seq<bool>, sink: seq<bool>, i: nat, k: nat, t: nat)
    requires |events| == |flags| && i <= |flags|
    requires t < |Drain(events, flags, sink, i, k).attempts|
    ensures var a := Drain(events, flags, sink, i, k).attempts[t];
      i <= a.index < |flags| && flags[a.index] && events[a.index] == Some(a.event) &&
      a.accepted == Accepts(sink, k + t)
  {
    DrainAttempts(events, flags, sink, i, k);
  }

  /**
    The loop skips no pending entry (a dirty one that has an event): the
    first write comes from the first pending entry at or after `i`.
   */
  lemma {:induction false} DrainFirst(events: seq<Option<MidiEvent>>, flags: seq<bool>, sink: seq<bool>, i: nat, k: nat)
    requires |events| == |flags| && i <= |flags|
    ensures forall j :: i <= j < |flags| && flags[j] && events[j].Some? ==>
      |Drain(events, flags, sink, i, k).attempts| > 0 && Drain(events, flags, sink, i, k).attempts[0].index <= j
    decreases |flags| - i
  {
    if i < |flags| {
      DrainStep(events, flags, sink, i, k);
      if !flags[i] || events[i].None? {
        DrainFirst(events, flags, sink, i + 1, k);
      }
    }
  }

  /** No pending entry lies between two consecutive writes of the loop. */
  lemma {:induction false} DrainBetween(events: seq<Option<MidiEvent>>, flags: seq<bool>, sink: seq<bool>, i: nat, k: nat)
    requires |events| == |flags| && i <= |flags|
    ensures forall t, j ::
      (0 <= t < |Drain(events, flags, sink, i, k).attempts| - 1 && j < |flags| &&
       Drain(events, flags, sink, i, k).attempts[t].index < j < Drain(events, flags, sink, i, k).attempts[t + 1].index) ==>
      !(flags[j] && events[j].Some?)
    decreases |flags| - i
  {
    if i < |flags| {
      DrainStep(events, flags, sink, i, k);
      if !flags[i] || events[i].None? {
        DrainBetween(events, flags, sink, i + 1, k);
      } else if Accepts(sink, k) {
        var flags' := flags[i := false];
        var rest := Drain(events, flags', sink, i + 1, k + 1);
        var p := Drain(events, flags, sink, i, k);
        DrainBetween(events, flags', sink, i + 1, k + 1);
        DrainFirst(events, flags', sink, i + 1, k + 1);
        DrainAttempts(events, flags', sink, i + 1, k + 1);
        assert p.attempts == [Attempt(i, events[i].value, true)] + rest.attempts;
        forall t, j | 0 <= t < |p.attempts| - 1 && j < |flags| && p.attempts[t].index < j < p.attempts[t + 1].index
          ensures !(flags[j] && events[j].Some?)
        {
          assert p.attempts[t + 1] == rest.attempts[t];
          assert flags'[j] == flags[j];
          if t > 0 {
            assert p.attempts[t] == rest.attempts[t - 1];
          }
        }
      }
    }
  }

  /** A pending entry after the loop's last write means the loop ended by a refusal. */
  lemma {:induction false} DrainAfterLast(events: seq<Option<MidiEvent>>, flags: seq<bool>, sink: seq<bool>, i: nat, k: nat)
    requires |events| == |flags| && i <= |flags|
    ensures forall j ::
      (i <= j < |flags| && flags[j] && events[j].Some? && |Drain(events, flags, sink, i, k).attempts| > 0 &&
       Drain(events, flags, sink, i, k).attempts[|Drain(events, flags, sink, i, k).attempts| - 1].index < j) ==>
      EndedByRefusal(Drain(events, flags, sink, i, k).attempts)
    decreases |flags| - i
  {
    if i < |flags| {
      DrainStep(events, flags, sink, i, k);
      if !flags[i] || events[i].None? {
        DrainAfterLast(events, flags, sink, i + 1, k);
      } else if Accepts(sink, k) {
        var flags' := flags[i := false];
        var rest := Drain(events, flags', sink, i + 1, k + 1);
        var p := Drain(events, flags, sink, i, k);
        DrainAfterLast(events, flags', sink, i + 1, k + 1);
        DrainFirst(events, flags', sink, i + 1, k + 1);
        assert p.attempts == [Attempt(i, events[i].value, true)] + rest.attempts;
        forall j | i <= j < |flags| && flags[j] && events[j].Some? && |p.attempts| > 0 && p.attempts[|p.attempts| - 1].index < j
          ensures EndedByRefusal(p.attempts)
        {
          // With no later write the last one is entry i's, so j > i is pending further on.
          assert |rest.attempts| > 0;
          DrainAttemptAt(events, flags', sink, i + 1, k + 1, |rest.attempts| - 1);
          assert p.attempts[|p.attempts| - 1] == rest.attempts[|rest.attempts| - 1];
          assert flags'[j] == flags[j];
        }
      }
    }
  }

  /** An entry ends up dirty exactly when it was dirty and no accepted write came from it. */
  lemma {:induction false} DrainFlags(events: seq<Option<MidiEvent>>, flags: seq<bool>, sink: seq<bool>, i: nat, k: nat)
    requires |events| == |flags| && i <= |flags|
    ensures forall j :: 0 <= j < |flags| ==>
      Drain(events, flags, sink, i, k).flags[j] == (flags[j] && !Written(Drain(events, flags, sink, i, k).attempts, j))
    decreases |flags| - i
  {
    if i < |flags| {
      DrainStep(events, flags, sink, i, k);
      var p := Drain(events, flags, sink, i, k);
      if !flags[i] || events[i].None? {
        DrainFlags(events, flags, sink, i + 1, k);
      } else if Accepts(sink, k) {
        var rest := Drain(events, flags[i := false], sink, i + 1, k + 1);
        DrainFlags(events, flags[i := false], sink, i + 1, k + 1);
        forall j | 0 <= j < |flags|
          ensures p.flags[j] == (flags[j] && !Written(p.attempts, j))
        {
          WrittenCons(Attempt(i, events[i].value, true), rest.attempts, j);
        }
      } else {
        assert p.attempts == [Attempt(i, events[i].value, false)];
        forall j | 0 <= j < |flags|
          ensures !Written(p.attempts, j)
        {
          WrittenCons(Attempt(i, events[i].value, false), [], j);
          assert [Attempt(i, events[i].value, false)] + [] == p.attempts;
        }
      }
    }
  }

  /** A refused write ends the loop: its entry and every later one keep their flags. */
  lemma {:induction false} DrainRefusal(events: seq<Option<MidiEvent>>, flags: seq<bool>, sink: seq<bool>, i: nat, k: nat)
    requires |events| == |flags| && i <= |flags|
    ensures forall t :: 0 <= t < |Drain(events, flags, sink, i, k).attempts| && !Drain(events, flags, sink, i, k).attempts[t].accepted ==>
      t == |Drain(events, flags, sink, i, k).attempts| - 1 &&
      forall j :: Drain(events, flags, sink, i, k).attempts[t].index <= j < |flags| ==> Drain(events, flags, sink, i, k).flags[j] == flags[j]
    decreases |flags| - i
  {
    DrainAttempts(events, flags, sink, i, k);
    if i < |flags| {
      DrainStep(events, flags, sink, i, k);
      if !flags[i] || events[i].None? {
        DrainRefusal(events, flags, sink, i + 1, k);
      } else if Accepts(sink, k) {
        var rest := Drain(events, flags[i := false], sink, i + 1, k + 1);
        var p := Drain(events, flags, sink, i, k);
        DrainRefusal(events, flags[i := false], sink, i + 1, k + 1);
        DrainAttempts(events, flags[i := false], sink, i + 1, k + 1);
        assert forall t :: 0 < t < |p.attempts| ==> p.attempts[t] == rest.attempts[t - 1];
        forall t | 0 <= t < |p.attempts| && !p.attempts[t].accepted
          ensures t == |p.attempts| - 1
          ensures forall j :: p.attempts[t].index <= j < |flags| ==> p.flags[j] == flags[j]
        {
          assert t > 0 && !rest.attempts[t - 1].accepted;
          assert rest.attempts[t - 1].index > i;
        }
      }
    }
  }

  /** Entries with no event are never written, so they keep their flags. */
  lemma {:induction false} DrainSkips(events: seq<Option<MidiEvent>>, flags: seq<bool>, sink: seq<bool>, i: nat, k: nat)
    requires |events| == |flags| && i <= |flags|
    ensures forall j :: 0 <= j < |flags| && events[j].None? ==> Drain(events, flags, sink, i, k).flags[j] == flags[j]
    decreases |flags| - i
  {
    if i < |flags| {
      DrainStep(events, flags, sink, i, k);
      if !flags[i] || events[i].None? {
        DrainSkips(events, flags, sink, i + 1, k);
      } else if Accepts(sink, k) {
        DrainSkips(events, flags[i := false], sink, i + 1, k + 1);
      }
    }
  }

  /**
    When the sink refuses nothing, every dirty entry with an event from `i` on
    is written and cleared; only the entries with no event stay dirty.
   */
  lemma {:induction false} DrainComplete(events: seq<Option<MidiEvent>>, flags: seq<bool>, sink: seq<bool>, i: nat, k: nat)
    requires |events| == |flags| && i <= |flags|
    requires !EndedByRefusal(Drain(events, flags, sink, i, k).attempts)
    ensures forall j :: i <= j < |flags| ==> Drain(events, flags, sink, i, k).flags[j] == (flags[j] && events[j].None?)
    decreases |flags| - i
  {
    if i < |flags| {
      DrainStep(events, flags, sink, i, k);
      var p := Drain(events, flags, sink, i, k);
      if !flags[i] || events[i].None? {
        DrainComplete(events, flags, sink, i + 1, k);
        DrainSkips(events, flags, sink, i + 1, k);
      } else if Accepts(sink, k) {
        var rest := Drain(events, flags[i := false], sink, i + 1, k + 1);
        assert |rest.attempts| > 0 ==> rest.attempts[|rest.attempts| - 1] == p.attempts[|p.attempts| - 1];
        DrainComplete(events, flags[i := false], sink, i + 1, k + 1);
      } else {
        assert false;
      }
    }
  }

  /** With nothing dirty from `i` on, the loop offers nothing and changes nothing. */
  lemma {:induction false} DrainIdle(events: seq<Option<MidiEvent>>, flags: seq<bool>, sink: seq<bool>, i: nat, k: nat)
    requires |events| == |flags| && i <= |flags|
    requires forall j :: i <= j < |flags| ==> !flags[j]
    ensures Drain(events, flags, sink, i, k) == Pass(flags, [])
    decreases |flags| - i
  {
    if i < |flags| {
      DrainIdle(events, flags, sink, i + 1, k);
    }
  }

  /**
    If some entry from `i` on is dirty and has an event, the loop offers at
    least one write, and the first gets the sink's k-th answer.
   */
  lemma {:induction false} DrainOffers(events: seq<Option<MidiEvent>>, flags: seq<bool>, sink: seq<bool>, i: nat, k: nat, j: nat)
    requires |events| == |flags| && i <= j < |flags|
    requires flags[j] && events[j].Some?
    ensures var p := Drain(events, flags, sink, i, k);
      |p.attempts| > 0 && p.attempts[0].accepted == Accepts(sink, k) && p.attempts[0].index <= j
    decreases |flags| - i
  {
    if i < j && (!flags[i] || events[i].None?) {
      DrainOffers(events, flags, sink, i + 1, k, j);
    }
  }

  /** Pending depends only on the flags from `i` on. */
  lemma {:induction false} PendingFrame(events: seq<Option<MidiEvent>>, flags: seq<bool>, flags': seq<bool>, i: nat)
    requires |events| == |flags| == |flags'| && i <= |flags|
    requires forall j :: i <= j < |flags| ==> flags[j] == flags'[j]
    ensures Pending(events, flags, i) == Pending(events, flags', i)
    decreases |flags| - i
  {
    if i < |flags| {
      PendingFrame(events, flags, flags', i + 1);
    }
  }

  /** With at most entry `j` dirty from `i` on, only its event, if it has one, is pending. */
  lemma {:induction false} PendingOnly(events: seq<Option<MidiEvent>>, flags: seq<bool>, i: nat, j: nat)
    requires |events| == |flags| && i <= |flags| && j < |flags|
    requires forall m :: i <= m < |flags| && flags[m] ==> m == j
    ensures Pending(events, flags, i) ==
      if i <= j && flags[j] && events[j].Some? then [events[j].value] else []
    decreases |flags| - i
  {
    if i < |flags| {
      PendingOnly(events, flags, i + 1, j);
    }
  }

  lemma SentCons(a: Attempt, rest: seq<Attempt>)
    ensures Sent([a] + rest) == (if a.accepted then [a.event] else []) + Sent(rest)
  {
    assert ([a] + rest)[1..] == rest;
  }

  /** A sink that refuses every write of the loop leaves every flag as it was and receives nothing. */
  lemma {:induction false} DrainRefused(events: seq<Option<MidiEvent>>, flags: seq<bool>, sink: seq<bool>, i: nat, k: nat)
    requires |events| == |flags| && i <= |flags|
    requires forall m :: k <= m < k + |flags| - i ==> !Accepts(sink, m)
    ensures Drain(events, flags, sink, i, k).flags == flags
    ensures Sent(Drain(events, flags, sink, i, k).attempts) == []
    decreases |flags| - i
  {
    if i < |flags| {
      DrainStep(events, flags, sink, i, k);
      if !flags[i] || events[i].None? {
        DrainRefused(events, flags, sink, i + 1, k);
      } else {
        assert !Accepts(sink, k);
        SentCons(Attempt(i, events[i].value, false), []);
      }
    }
  }

  /**
    A loop the sink never stopped sends exactly the pending events, in entry
    order: one per dirty entry that has an event, none for the others.
   */
  lemma {:induction false} DrainSendsPending(events: seq<Option<MidiEvent>>, flags: seq<bool>, sink: seq<bool>, i: nat, k: nat)
    requires |events| == |flags| && i <= |flags|
    requires !EndedByRefusal(Drain(events, flags, sink, i, k).attempts)
    ensures Sent(Drain(events, flags, sink, i, k).attempts) == Pending(events, flags, i)
    decreases |flags| - i
  {
    if i < |flags| {
      DrainStep(events, flags, sink, i, k);
      var p := Drain(events, flags, sink, i, k);
      if !flags[i] || events[i].None? {
        DrainSendsPending(events, flags, sink, i + 1, k);
      } else if Accepts(sink, k) {
        var rest := Drain(events, flags[i := false], sink, i + 1, k + 1);
        assert |rest.attempts| > 0 ==> rest.attempts[|rest.attempts| - 1] == p.attempts[|p.attempts| - 1];
        DrainSendsPending(events, flags[i := false], sink, i + 1, k + 1);
        PendingFrame(events, flags[i := false], flags, i + 1);
        SentCons(Attempt(i, events[i].value, true), rest.attempts);
      } else {
        assert false;
      }
    }
  }

  /** A sink that accepts every write of the loop never stops it. */
  lemma NoRefusal(events: seq<Option<MidiEvent>>, flags: seq<bool>, sink: seq<bool>, i: nat, k: nat)
    requires |events| == |flags| && i <= |flags|
    requires forall m :: k <= m < k + |flags| - i ==> Accepts(sink, m)
    ensures !EndedByRefusal(Drain(events, flags, sink, i, k).attempts)
  {
    DrainAttempts(events, flags, sink, i, k);
  }

  /**
    The loop state before entry `i`, with flags `flags` and the writes `done`
    offered so far, leads to the same end as the whole loop started from `flags0`.
   */
  ghost predicate Resumes(events: seq<Option<MidiEvent>>, flags0: seq<bool>, sink: seq<bool>, k0: nat,
                          flags: seq<bool>, i: nat, done: seq<Attempt>)
    requires |events| == |flags0| == |flags| && i <= |flags|
  {
    var rest := Drain(events, flags, sink, i, k0 + |done|);
    Drain(events, flags0, sink, 0, k0) == Pass(rest.flags, done + rest.attempts)
  }

  lemma ResumeStart(events: seq<Option<MidiEvent>>, flags0: seq<bool>, sink: seq<bool>, k0: nat)
    requires |events| == |flags0|
    ensures Resumes(events, flags0, sink, k0, flags0, 0, [])
  {
    assert [] + Drain(events, flags0, sink, 0, k0).attempts == Drain(events, flags0, sink, 0, k0).attempts;
  }

  /** One iteration of the loop body keeps the loop on course, or ends it. */
  lemma ResumeStep(events: seq<Option<MidiEvent>>, flags0: seq<bool>, sink: seq<bool>, k0: nat,
                   flags: seq<bool>, i: nat, done: seq<Attempt>)
    requires |events| == |flags0| == |flags| && i < |flags|
    requires Resumes(events, flags0, sink, k0, flags, i, done)
    ensures !flags[i] || events[i].None? ==> Resumes(events, flags0, sink, k0, flags, i + 1, done)
    ensures flags[i] && events[i].Some? && Accepts(sink, k0 + |done|) ==>
      Resumes(events, flags0, sink, k0, flags[i := false], i + 1, done + [Attempt(i, events[i].value, true)])
    ensures flags[i] && events[i].Some? && !Accepts(sink, k0 + |done|) ==>
      Drain(events, flags0, sink, 0, k0) == Pass(flags, done + [Attempt(i, events[i].value, false)])
  {
    DrainStep(events, flags, sink, i, k0 + |done|);
    if flags[i] && events[i].Some? && Accepts(sink, k0 + |done|) {
      var a := Attempt(i, events[i].value, true);
      var rest := Drain(events, flags[i := false], sink, i + 1, k0 + |done| + 1);
      assert done + ([a] + rest.attempts) == (done + [a]) + rest.attempts;
    }
  }

  lemma ResumeEnd(events: seq<Option<MidiEvent>>, flags0: seq<bool>, sink: seq<bool>, k0: nat,
                  flags: seq<bool>, done: seq<Attempt>)
    requires |events| == |flags0| == |flags|
    requires Resumes(events, flags0, sink, k0, flags, |flags|, done)
    ensures Drain(events, flags0, sink, 0, k0) == Pass(flags, done)
  {
    assert done + [] == done;
  }
}
