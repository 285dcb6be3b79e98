/**
 * The line-style select: the table of curve options it renders, and the
 * guard that passes a picked value on only when it is one of them.
 */
module LineStyleSelect {
  import opened SharedTypes

  datatype CurveOption = CurveOption(value: string, caption: string)

  /** `CURVE_OPTIONS`, in display order. */
  const CurveOptions: seq<CurveOption> := [
    CurveOption("linear", "Linear"),
    CurveOption("monotone", "Smooth (Monotone)"),
    CurveOption("monotoneX", "Monotone X"),
    CurveOption("monotoneY", "Monotone Y"),
    CurveOption("natural", "Natural"),
    CurveOption("basis", "Basis"),
    CurveOption("basisClosed", "Basis Closed"),
    CurveOption("basisOpen", "Basis Open"),
    CurveOption("bump", "Bump"),
    CurveOption("bumpX", "Bump X"),
    CurveOption("bumpY", "Bump Y"),
    CurveOption("step", "Step"),
    CurveOption("stepBefore", "Step Before"),
    CurveOption("stepAfter", "Step After"),
    CurveOption("linearClosed", "Linear Closed")
  ]

  /** `options.some((opt) => opt.value === s)`. */
  function SomeValueIs(options: seq<CurveOption>, s: string): bool {
    if options == [] then false else options[0].value == s || SomeValueIs(options[1..], s)
  }

  lemma {:induction false} SomeValueIsSpec(options: seq<CurveOption>, s: string)
    ensures SomeValueIs(options, s) <==> exists i :: 0 <= i < |options| && options[i].value == s
  {
    if options != [] {
      SomeValueIsSpec(options[1..], s);
      assert forall i :: 1 <= i < |options| ==> options[i] == options[1..][i - 1];
    }
  }

  /** The values of the `<Option>` elements the select renders. */
  function RenderedValues(): (r: seq<string>)
    ensures |r| == |CurveOptions|
  {
    seq(|CurveOptions|, i requires 0 <= i < |CurveOptions| => CurveOptions[i].value)
  }

  lemma RenderedValuesSpec(s: string)
    ensures s in RenderedValues() <==> exists i :: 0 <= i < |CurveOptions| && CurveOptions[i].value == s
  {
    assert forall i :: 0 <= i < |CurveOptions| ==> RenderedValues()[i] == CurveOptions[i].value;
  }

  /** `handleChange`: the list of `onChange` calls it makes for a reported value. */
  function HandleChange(newValue: Selection): seq<string> {
    match newValue
    case Many(_) => []
    case Single(s) => if SomeValueIs(CurveOptions, s) then [s] else []
  }

  /**
   * A list never reaches `onChange`; a string does, once and unchanged,
   * exactly when the select renders it as an option.
   */
  lemma HandleChangeSpec(newValue: Selection)
    ensures newValue.Many? ==> HandleChange(newValue) == []
    ensures newValue.Single? && newValue.value in RenderedValues() ==> HandleChange(newValue) == [newValue.value]
    ensures newValue.Single? && newValue.value !in RenderedValues() ==> HandleChange(newValue) == []
  {
    if newValue.Single? {
      SomeValueIsSpec(CurveOptions, newValue.value);
      RenderedValuesSpec(newValue.value);
    }
  }

  /** What the select renders is what the guard accepts, and nothing else is accepted. */
  lemma RenderedEqualsAccepted(s: string)
    ensures s in RenderedValues() <==> HandleChange(Single(s)) == [s]
    ensures HandleChange(Single(s)) == [] || HandleChange(Single(s)) == [s]
  {
    HandleChangeSpec(Single(s));
  }

  /** No two options share a value (each is the React key of its `<Option>`). */
  lemma OptionValuesDistinct()
    ensures forall i, j :: 0 <= i < j < |RenderedValues()| ==> RenderedValues()[i] != RenderedValues()[j]
  {
  }
}
