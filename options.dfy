/** Resolution options: three flags, changed by override functions that a
    caller passes per call and `Options.Set` applies in argument order. */
module EndpointOptions {

  /** The value of an options record. */
  datatype Flags = Flags(disableSSL: bool, useDualStack: bool, strictMatching: bool)

  /** The zero value: SSL on, no dual-stack preference, loose matching. */
  const NoOverrides := Flags(false, false, false)

  /** An option override; in Go a `func(*Options)` that writes through the pointer. */
  type Override = Flags -> Flags

  function DisableSSLOption(o: Flags): Flags {
    o.(disableSSL := true)
  }

  function UseDualStackOption(o: Flags): Flags {
    o.(useDualStack := true)
  }

  function StrictMatchingOption(o: Flags): Flags {
    o.(strictMatching := true)
  }

  /** The options that result from applying `fns` to `o`, first one first. */
  function ApplyAll(o: Flags, fns: seq<Override>): Flags
    decreases |fns|
  {
    if fns == [] then o else ApplyAll(fns[0](o), fns[1..])
  }

  /** Applying two lists one after the other is applying their concatenation:
      one bulk call and several calls in a row agree. */
  lemma {:induction false} ApplyAllAppend(o: Flags, a: seq<Override>, b: seq<Override>)
    ensures ApplyAll(o, a + b) == ApplyAll(ApplyAll(o, a), b)
    decreases |a|
  {
    if a == [] {
      assert a + b == b;
    } else {
      assert (a + b)[0] == a[0];
      assert (a + b)[1..] == a[1..] + b;
      ApplyAllAppend(a[0](o), a[1..], b);
    }
  }

  /** The three named overrides. */
  datatype NamedOption = DisableSSL | UseDualStack | StrictMatching

  function Effect(n: NamedOption): Override {
    match n
    case DisableSSL => DisableSSLOption
    case UseDualStack => UseDualStackOption
    case StrictMatching => StrictMatchingOption
  }

  function Effects(ns: seq<NamedOption>): (fns: seq<Override>)
    ensures |fns| == |ns|
  {
    if ns == [] then [] else [Effect(ns[0])] + Effects(ns[1..])
  }

  /** Applying named overrides sets exactly the flags they name and keeps the
      others: the result depends only on which names occur, so the order of the
      overrides and their repetition make no difference. */
  lemma {:induction false} ApplyNamed(o: Flags, ns: seq<NamedOption>)
    ensures ApplyAll(o, Effects(ns)) ==
      Flags(o.disableSSL || DisableSSL in ns,
            o.useDualStack || UseDualStack in ns,
            o.strictMatching || StrictMatching in ns)
    decreases |ns|
  {
    if ns != [] {
      var fns := Effects(ns);
      assert fns[0] == Effect(ns[0]) && fns[1..] == Effects(ns[1..]);
      ApplyNamed(Effect(ns[0])(o), ns[1..]);
      assert forall n :: n in ns <==> n == ns[0] || n in ns[1..];
    }
  }

  /** Two lists that name the same overrides, in any order and with any
      repetition, give the same options. */
  lemma NamedOrderIrrelevant(o: Flags, ns: seq<NamedOption>, ms: seq<NamedOption>)
    requires forall n :: n in ns <==> n in ms
    ensures ApplyAll(o, Effects(ns)) == ApplyAll(o, Effects(ms))
  {
    ApplyNamed(o, ns);
    ApplyNamed(o, ms);
  }

  /** The options record that `Set` updates in place. */
  class Options {
    var disableSSL: bool
    var useDualStack: bool
    var strictMatching: bool

    function Value(): Flags
      reads this
    {
      Flags(disableSSL, useDualStack, strictMatching)
    }

    /** A zero-valued record, like Go's `var o Options`. */
    constructor ()
      ensures Value() == NoOverrides
    {
      disableSSL, useDualStack, strictMatching := false, false, false;
    }

    /** Applies each override in turn to the record. */
    method Set(fns: seq<Override>)
      modifies this
      ensures Value() == ApplyAll(old(Value()), fns)
    {
      var i := 0;
      while i < |fns|
        invariant 0 <= i <= |fns|
        invariant ApplyAll(Value(), fns[i..]) == ApplyAll(old(Value()), fns)
      {
        assert fns[i..][0] == fns[i] && fns[i..][1..] == fns[i + 1..];
        var next := fns[i](Value());
        disableSSL, useDualStack, strictMatching := next.disableSSL, next.useDualStack, next.strictMatching;
        i := i + 1;
      }
      assert fns[i..] == [];
    }
  }

  /** Setting all three named overrides on a zero record turns on all three
      flags. */
  method SetAllOptions() returns (f: Flags)
    ensures f == Flags(true, true, true)
  {
    var o := new Options();
    var fns: seq<Override> := [DisableSSLOption, UseDualStackOption, StrictMatchingOption];
    o.Set(fns);
    f := o.Value();
    assert fns == Effects([DisableSSL, UseDualStack, StrictMatching]);
    ApplyNamed(NoOverrides, [DisableSSL, UseDualStack, StrictMatching]);
  }
}
