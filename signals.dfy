/**
 * What the LED sink observes (main.rs:64-72 and the `sleep` calls of
 * main.rs:74-100), and how a failing sink cuts a run of events short.
 *
 * A write of "1" is `On`, a write of "0" is `Off`, and a blocking sleep of
 * n times `unit_delay` is `Wait(n)`. The sink may fail: `writesLeft` is
 * None when it never fails and Some(n) when the next n writes succeed and
 * every write after them fails. A failed write leaves no event, and every
 * operation of the encoder returns at its first failed write, so what the
 * sink records of an intended run is the part of the run before the write
 * that failed.
 */
module Signals {
  import opened Wrappers

  /** Milliseconds in one time unit (main.rs:60). */
  const UnitDelayMs: nat := 200

  datatype Event = On | Off | Wait(units: nat) {
    predicate IsWrite() { On? || Off? }
  }

  /** Number of writes (On or Off) in a run. */
  function Writes(es: seq<Event>): nat {
    if es == [] then 0 else (if es[0].IsWrite() then 1 else 0) + Writes(es[1..])
  }

  /** Total time, in units, that a run spends sleeping. */
  function Duration(es: seq<Event>): nat {
    if es == [] then 0 else (if es[0].Wait? then es[0].units else 0) + Duration(es[1..])
  }

  /** The writes of a run, in order. */
  function Levels(es: seq<Event>): seq<Event> {
    if es == [] then [] else (if es[0].IsWrite() then [es[0]] else []) + Levels(es[1..])
  }

  /** Whether the LED is lit after a run that started lit or dark. */
  function LitAfter(es: seq<Event>, lit: bool): bool {
    if es == [] then lit else LitAfter(es[1..], if es[0].IsWrite() then es[0].On? else lit)
  }

  /** Time, in units, that a run spends sleeping with the LED lit. */
  function LitTime(es: seq<Event>, lit: bool): nat {
    if es == [] then 0
    else
      (if es[0].Wait? && lit then es[0].units else 0)
      + LitTime(es[1..], if es[0].IsWrite() then es[0].On? else lit)
  }

  lemma {:induction false} WritesAppend(a: seq<Event>, b: seq<Event>)
    ensures Writes(a + b) == Writes(a) + Writes(b)
  {
    if a == [] {
      assert a + b == b;
    } else {
      assert (a + b)[1..] == a[1..] + b;
      WritesAppend(a[1..], b);
    }
  }

  lemma {:induction false} DurationAppend(a: seq<Event>, b: seq<Event>)
    ensures Duration(a + b) == Duration(a) + Duration(b)
  {
    if a == [] {
      assert a + b == b;
    } else {
      assert (a + b)[1..] == a[1..] + b;
      DurationAppend(a[1..], b);
    }
  }

  lemma {:induction false} LevelsAppend(a: seq<Event>, b: seq<Event>)
    ensures Levels(a + b) == Levels(a) + Levels(b)
  {
    if a == [] {
      assert a + b == b;
    } else {
      assert (a + b)[0] == a[0] && (a + b)[1..] == a[1..] + b;
      LevelsAppend(a[1..], b);
      var head := if a[0].IsWrite() then [a[0]] else [];
      assert Levels(a + b) == head + Levels(a[1..] + b);
      assert Levels(a) == head + Levels(a[1..]);
    }
  }

  lemma {:induction false} LitAppend(a: seq<Event>, b: seq<Event>, lit: bool)
    ensures LitTime(a + b, lit) == LitTime(a, lit) + LitTime(b, LitAfter(a, lit))
    ensures LitAfter(a + b, lit) == LitAfter(b, LitAfter(a, lit))
  {
    if a == [] {
      assert a + b == b;
    } else {
      assert (a + b)[1..] == a[1..] + b;
      LitAppend(a[1..], b, if a[0].IsWrite() then a[0].On? else lit);
    }
  }

  /** The part of a run that comes before its (n+1)-th write. */
  function Prefix(es: seq<Event>, n: nat): seq<Event> {
    if es == [] then []
    else if es[0].IsWrite() && n == 0 then []
    else [es[0]] + Prefix(es[1..], if es[0].IsWrite() then n - 1 else n)
  }

  /**
   * Prefix keeps all of a run with at most n writes; otherwise it stops just
   * before the (n+1)-th write, having kept exactly n writes.
   */
  lemma {:induction false} PrefixCut(es: seq<Event>, n: nat)
    ensures Prefix(es, n) <= es
    ensures Writes(es) <= n ==> Prefix(es, n) == es
    ensures Writes(es) > n ==>
      var r := Prefix(es, n); |r| < |es| && es[|r|].IsWrite() && Writes(r) == n
  {
    if es != [] && !(es[0].IsWrite() && n == 0) {
      var m := if es[0].IsWrite() then n - 1 else n;
      PrefixCut(es[1..], m);
      var r := Prefix(es, n);
      assert r[1..] == Prefix(es[1..], m);
    }
  }

  /** Whether a sink with `left` writes to spare accepts every write of the run. */
  predicate Completes(es: seq<Event>, left: Option<nat>) {
    left.None? || Writes(es) <= left.value
  }

  /** What the sink records of an intended run. */
  function Emitted(es: seq<Event>, left: Option<nat>): seq<Event> {
    match left
    case None => es
    case Some(n) => Prefix(es, n)
  }

  /** The sink's spare writes after it has been offered the run. */
  function Remaining(left: Option<nat>, es: seq<Event>): Option<nat> {
    match left
    case None => None
    case Some(n) => Some(if Writes(es) <= n then n - Writes(es) else 0)
  }

  /** The sink records all of a run exactly when it accepts every write in it. */
  lemma EmittedAll(es: seq<Event>, left: Option<nat>)
    ensures Emitted(es, left) <= es
    ensures Emitted(es, left) == es <==> Completes(es, left)
  {
    if left.Some? {
      PrefixCut(es, left.value);
    }
  }

  /**
   * When the sink refuses a write of the run, it has recorded exactly the
   * part of the run before that write: a proper prefix holding as many
   * writes as the sink had to spare, and nothing after it.
   */
  lemma EmittedOnFailure(es: seq<Event>, left: Option<nat>)
    requires !Completes(es, left)
    ensures var r := Emitted(es, left);
      && |r| < |es| && r == es[..|r|] && es[|r|].IsWrite()
      && Writes(r) == left.value && Remaining(left, es) == Some(0)
  {
    PrefixCut(es, left.value);
  }

  /** Cutting a + b before its (n+1)-th write cuts inside a, or keeps a and cuts b. */
  lemma {:induction false} PrefixAppend(a: seq<Event>, b: seq<Event>, n: nat)
    ensures Prefix(a + b, n) == if Writes(a) <= n then a + Prefix(b, n - Writes(a)) else Prefix(a, n)
  {
    if a == [] {
      assert a + b == b;
    } else {
      var e, ab := a[0], a + b;
      assert ab[0] == e && ab[1..] == a[1..] + b;
      assert Writes(a) == (if e.IsWrite() then 1 else 0) + Writes(a[1..]);
      if !(e.IsWrite() && n == 0) {
        var m := if e.IsWrite() then n - 1 else n;
        PrefixAppend(a[1..], b, m);
        assert Prefix(ab, n) == [e] + Prefix(a[1..] + b, m);
        if Writes(a) <= n {
          assert a == [e] + a[1..];
          assert n - Writes(a) == m - Writes(a[1..]);
        } else {
          assert Prefix(a, n) == [e] + Prefix(a[1..], m);
        }
      }
    }
  }

  /**
   * Offering a run a + b is offering a, then, only if the sink took all of a,
   * offering b with the writes it has left.
   */
  lemma Sequence(a: seq<Event>, b: seq<Event>, left: Option<nat>)
    ensures Emitted(a + b, left)
      == if Completes(a, left) then a + Emitted(b, Remaining(left, a)) else Emitted(a, left)
    ensures Completes(a + b, left) <==> Completes(a, left) && Completes(b, Remaining(left, a))
    ensures Remaining(left, a + b) == Remaining(Remaining(left, a), b)
  {
    WritesAppend(a, b);
    if left.Some? {
      PrefixAppend(a, b, left.value);
    }
  }

  /**
   * A sink that had recorded `t0` with `l0` writes to spare was offered `es`
   * and now has recorded `t` with `l` to spare.
   */
  ghost predicate Recorded(t: seq<Event>, l: Option<nat>, t0: seq<Event>, l0: Option<nat>, es: seq<Event>) {
    t == t0 + Emitted(es, l0) && l == Remaining(l0, es)
  }

  /** Offering `a`, which the sink took in full, then `b` is offering a + b. */
  lemma Chain(t0: seq<Event>, l0: Option<nat>, a: seq<Event>, t1: seq<Event>, l1: Option<nat>,
              b: seq<Event>, t2: seq<Event>, l2: Option<nat>)
    requires Recorded(t1, l1, t0, l0, a) && Completes(a, l0)
    requires Recorded(t2, l2, t1, l1, b)
    ensures Recorded(t2, l2, t0, l0, a + b)
    ensures Completes(a + b, l0) <==> Completes(b, l1)
  {
    Sequence(a, b, l0);
    EmittedAll(a, l0);
  }

  /** Once the sink has refused a write of `a`, nothing offered after `a` is recorded. */
  lemma Abandon(t0: seq<Event>, l0: Option<nat>, a: seq<Event>, rest: seq<Event>, t: seq<Event>, l: Option<nat>)
    requires Recorded(t, l, t0, l0, a) && !Completes(a, l0)
    ensures Recorded(t, l, t0, l0, a + rest) && !Completes(a + rest, l0)
  {
    Sequence(a, rest, l0);
  }

  /** A single write is recorded unless the sink has no write to spare. */
  lemma Single(e: Event, left: Option<nat>)
    requires e.IsWrite()
    ensures Completes([e], left) <==> left != Some(0)
    ensures Emitted([e], left) == if left == Some(0) then [] else [e]
    ensures Remaining(left, [e]) == match left case None => None case Some(n) => Some(if n == 0 then 0 else n - 1)
  {
    assert [e][1..] == [];
    assert Writes([e]) == 1;
    if left.Some? {
      PrefixCut([e], left.value);
    }
  }

  /** A hold is always recorded and uses up no writes. */
  lemma Hold(k: nat, left: Option<nat>)
    ensures Emitted([Wait(k)], left) == [Wait(k)] && Remaining(left, [Wait(k)]) == left
    ensures Completes([Wait(k)], left)
  {
    assert [Wait(k)][1..] == [];
    assert Writes([Wait(k)]) == 0;
    if left.Some? {
      PrefixCut([Wait(k)], left.value);
    }
  }
}
