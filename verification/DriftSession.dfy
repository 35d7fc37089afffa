/** The tracker's mutable side: forms built key by key, the symbol counter and the
    branch flags, each proved against the functions of `DriftOps`. */
module DriftSession {

  import opened Text
  import opened Reals
  import opened DriftArith
  import opened Drift
  import opened DriftOps

  // ----- forms, one entry at a time -----

  lemma {:induction false} SumAbsInsert(lin: map<nat, real>, s: nat, c: real, n: nat)
    requires s !in lin
    ensures SumAbs(lin[s := c], n) == SumAbs(lin, n) + if s < n then Abs(c) else 0.0
  {
    if n > 0 {
      SumAbsInsert(lin, s, c, n - 1);
    }
  }

  /** `radius`: the entries' magnitudes, in any order, and the remainder. */
  method FindRadius(t: Tracked, n: nat) returns (r: real)
    requires Below(t.lin, n)
    ensures r == Radius(t, n)
  {
    r := 0.0;
    ghost var done: map<nat, real> := map[];
    var rest := t.lin;
    EmptySums(map[], (s: nat) => 0.0, n);
    while rest.Keys != {}
      invariant rest.Keys <= t.lin.Keys && done.Keys == t.lin.Keys - rest.Keys
      invariant forall s :: s in rest ==> rest[s] == t.lin[s]
      invariant forall s :: s in done ==> done[s] == t.lin[s]
      invariant r == SumAbs(done, n)
      decreases rest.Keys
    {
      var s :| s in rest.Keys;
      SumAbsInsert(done, s, rest[s], n);
      r := r + Abs(rest[s]);
      done := done[s := rest[s]];
      rest := rest - {s};
    }
    assert done == t.lin;
    r := r + t.rem;
  }

  function ScaleForm(a: map<nat, real>, k: real): map<nat, real> {
    if k != 0.0 then map s | s in a :: Times(a[s], k) else map[]
  }

  lemma MergedIs(a: map<nat, real>, ka: real, b: map<nat, real>, kb: real, out: map<nat, real>)
    requires out.Keys == ScaleForm(a, ka).Keys + ScaleForm(b, kb).Keys
    requires forall s :: s in out ==> out[s] == Coef(ScaleForm(a, ka), s) + Coef(ScaleForm(b, kb), s)
    ensures out == Merge(a, ka, b, kb)
  {
    hide Times;
    forall s | s in out ensures out[s] == Weighted(ka, Coef(a, s), kb, Coef(b, s)) {
      ScaledCoef(a, ka, s);
      ScaledCoef(b, kb, s);
    }
    assert out.Keys == Merge(a, ka, b, kb).Keys;
  }

  lemma ScaledCoef(a: map<nat, real>, k: real, s: nat)
    ensures Coef(ScaleForm(a, k), s) == Times(k, Coef(a, s))
  {
    hide Times;
    TimesSwap(k, Coef(a, s));
    TimesSigns(k, 0.0);
    TimesSigns(0.0, Coef(a, s));
  }

  /** `_merge`: the first form scaled, then the second added in entry by entry. */
  method MergeForms(a: map<nat, real>, ka: real, b: map<nat, real>, kb: real) returns (out: map<nat, real>)
    ensures out == Merge(a, ka, b, kb)
  {
    out := ScaleForm(a, ka);
    hide Times;
    ghost var first := out;
    if kb != 0.0 {
      var rest := b;
      while rest.Keys != {}
        invariant rest.Keys <= b.Keys && forall s :: s in rest ==> rest[s] == b[s]
        invariant out.Keys == first.Keys + (b.Keys - rest.Keys)
        invariant forall s :: s in out ==> out[s] == Coef(first, s) + (if s in b && s !in rest then Times(b[s], kb) else 0.0)
        decreases rest.Keys
      {
        var s :| s in rest.Keys;
        out := out[s := (if s in out then out[s] else 0.0) + Times(rest[s], kb)];
        rest := rest - {s};
      }
    }
    MergedIs(a, ka, b, kb, out);
  }

  /** The entries before `mark`, and the magnitudes of those from it on. */
  method SplitForm(lin: map<nat, real>, mark: nat, n: nat) returns (kept: map<nat, real>, radius: real)
    requires Below(lin, n)
    ensures kept == Early(lin, mark) && radius == SumAbs(Late(lin, mark), n)
  {
    kept, radius := map[], 0.0;
    var rest := lin;
    ghost var late: map<nat, real> := map[];
    EmptySums(map[], (s: nat) => 0.0, n);
    while rest.Keys != {}
      invariant rest.Keys <= lin.Keys && forall s :: s in rest ==> rest[s] == lin[s]
      invariant forall s :: s in kept <==> s in lin && s !in rest && s < mark
      invariant forall s :: s in late <==> s in lin && s !in rest && s >= mark
      invariant forall s :: s in kept ==> kept[s] == lin[s]
      invariant forall s :: s in late ==> late[s] == lin[s]
      invariant radius == SumAbs(late, n)
      decreases rest.Keys
    {
      var s :| s in rest.Keys;
      assert s in lin && s < n;
      if s < mark {
        kept := kept[s := rest[s]];
      } else {
        SumAbsInsert(late, s, rest[s], n);
        radius := radius + Abs(rest[s]);
        late := late[s := rest[s]];
      }
      rest := rest - {s};
    }
    assert kept == Early(lin, mark);
    assert late == Late(lin, mark);
  }

  /** The symbol counter and the number of branch flags. */
  class Session {
    var symbols: nat
    var flags: nat

    constructor ()
      ensures symbols == 0 && flags == 0
    {
      symbols, flags := 0, 0;
    }

    method FinishForm(f: Format, z: real, lin: map<nat, real>, rem: real, diverged: bool, hint: real) returns (t: Tracked)
      modifies this`symbols
      ensures Made(t, symbols) == Finish(f, z, lin, rem, diverged, hint, old(symbols))
    {
      if diverged {
        t := Tracked(z, lin[symbols := f.ulp(Abs(z) + hint)], rem);
        symbols := symbols + 1;
      } else {
        t := Tracked(z, lin, rem);
      }
    }

    method AddValues(f: Format, x: Tracked, y: Tracked, plus: bool) returns (t: Tracked)
      requires Formed(x, symbols) && Formed(y, symbols)
      modifies this`symbols
      ensures Made(t, symbols) == Add(f, x, y, plus, old(symbols))
    {
      hide Merge, SumAbs, Sum, Abs;
      var lin := MergeForms(x.lin, 1.0, y.lin, if plus then 1.0 else -1.0);
      var p := FindRadius(x, symbols);
      var q := FindRadius(y, symbols);
      t := FinishForm(f, f.rnd(Sum(x.v, y.v, plus)), lin, x.rem + y.rem, Diverged(x) || Diverged(y), p + q);
    }

    method MulValues(f: Format, x: Tracked, y: Tracked) returns (t: Tracked)
      requires Formed(x, symbols) && Formed(y, symbols)
      modifies this`symbols
      ensures Made(t, symbols) == Mul(f, x, y, old(symbols))
    {
      var p := FindRadius(x, symbols);
      var q := FindRadius(y, symbols);
      var lin := MergeForms(x.lin, y.v, y.lin, x.v);
      t := FinishForm(f, f.rnd(Times(x.v, y.v)), lin, MulRest(x.v, y.v, x.rem, y.rem, p, q),
        Diverged(x) || Diverged(y), MulRest(x.v, y.v, p, q, p, q));
    }

    /** A quotient; none when the divisor is zero or its uncertainty reaches half of it. */
    method DivValues(f: Format, x: Tracked, y: Tracked) returns (t: Option<Tracked>)
      requires Formed(x, symbols) && Formed(y, symbols)
      modifies this`symbols
      ensures t.Some? <==> Divides(y, old(symbols))
      ensures t.Some? ==> Made(t.value, symbols) == Div(f, x, y, old(symbols))
    {
      hide Over, Times, Merge, SumAbs, DivRest;
      var p := FindRadius(x, symbols);
      var q := FindRadius(y, symbols);
      if y.v == 0.0 || q >= Abs(y.v) / 2.0 { return None; }
      SquareOf(y.v);
      var lin := MergeForms(x.lin, Over(1.0, y.v), y.lin, Over(-x.v, Times(y.v, y.v)));
      var r := FinishForm(f, f.rnd(Over(x.v, y.v)), lin, DivRest(x.v, y.v, x.rem, y.rem, p, q),
        Diverged(x) || Diverged(y), DivRest(x.v, y.v, p, q, p, q));
      return Some(r);
    }

    /** `t_fmod`: exact in both builds; a flag when the argument could wrap. */
    method FmodValue(x: Tracked, m: real) returns (t: Option<Tracked>)
      requires Formed(x, symbols)
      modifies this`flags
      ensures t.Some? <==> m != 0.0
      ensures t.Some? ==> t.value == Fmod(x, m) && flags == old(flags) + (if FmodWraps(x, m, symbols) then 1 else 0)
    {
      hide Over, Times, SumAbs, Trunc;
      if m == 0.0 { return None; }
      var b := FindRadius(x, symbols);
      if Diverged(x) && Trunc(Over(x.v - b, m)) != Trunc(Over(x.v + b, m)) {
        flags := flags + 1;
      }
      return Some(Tracked(FmodOf(x.v, m), x.lin, x.rem));
    }

    /** Whether a comparison holds; a flag when the builds could disagree on it. */
    method Compare(x: Tracked, y: Tracked, op: Relation) returns (holds: bool)
      requires Formed(x, symbols) && Formed(y, symbols)
      modifies this`flags
      ensures holds == Holds(op, x.v, y.v)
      ensures flags == old(flags) + if Ambiguous(x, y, symbols) then 1 else 0
    {
      var p := FindRadius(x, symbols);
      var q := FindRadius(y, symbols);
      if (Diverged(x) || Diverged(y)) && Abs(x.v - y.v) <= p + q {
        flags := flags + 1;
      }
      holds := Holds(op, x.v, y.v);
    }

    /** `condense`: symbols from `mark` on are folded into one. */
    method CondenseValue(x: Tracked, mark: nat) returns (t: Tracked)
      requires Formed(x, symbols)
      modifies this`symbols
      ensures Made(t, symbols) == Condense(x, mark, old(symbols))
    {
      var kept, radius := SplitForm(x.lin, mark, symbols);
      if radius > 0.0 {
        kept := kept[symbols := radius];
        symbols := symbols + 1;
      }
      t := Tracked(x.v, kept, x.rem);
    }
  }
}
