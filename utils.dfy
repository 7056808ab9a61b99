/**
 * `getInputWidth` from src/utils.js: the CSS width declaration that sizes an
 * input field to its content, `width:calc(<count>ch + 3rem)`, where the
 * count is 1 for `undefined` or the empty string and otherwise the length of
 * the value in UTF-16 code units.
 *
 * `ParseInputWidth` is the reading direction: it recovers the count from such
 * a declaration, and the lemmas show it inverts `GetInputWidth` exactly.
 */
module Utils {
  import opened Decimal

  /** A JavaScript string: a sequence of UTF-16 code units. */
  type CodeUnit = bv16
  type JsString = seq<CodeUnit>

  /** An input value: `None` is `undefined`, `Some(s)` a string. */
  datatype Option<T> = None | Some(value: T)

  const Prefix: string := "width:calc("
  const Suffix: string := "ch + 3rem)"

  /** The number of `ch` units the input is sized to. */
  function WidthCount(val: Option<JsString>): (n: nat)
    ensures n >= 1
    ensures val.Some? ==> |val.value| <= n
    ensures n == 1 || (val.Some? && n == |val.value|)
  {
    if val == None || val.value == [] then 1 else |val.value|
  }

  /**
   * The CSS width declaration for an input holding `val`. The declaration is
   * pure ASCII, so its characters and its UTF-16 code units coincide.
   */
  function GetInputWidth(val: Option<JsString>): (css: string)
    ensures |css| > |Prefix| + |Suffix|
    ensures css[..|Prefix|] == Prefix
    ensures css[|css| - |Suffix|..] == Suffix
    ensures Canonical(css[|Prefix|..|css| - |Suffix|])
    ensures DecimalValue(css[|Prefix|..|css| - |Suffix|]) == WidthCount(val)
  {
    var digits := NatToDecimal(WidthCount(val));
    var css := Prefix + digits + Suffix;
    assert css[|Prefix|..|css| - |Suffix|] == digits;
    DecimalValueOfNatToDecimal(WidthCount(val));
    css
  }

  /**
   * The count a width declaration of the form above spells, if it is one;
   * when it succeeds, the declaration is exactly the prefix, the canonical
   * digits of the count, and the suffix.
   */
  function ParseInputWidth(css: string): (r: Option<nat>)
    ensures r.Some? ==> css == Prefix + NatToDecimal(r.value) + Suffix
  {
    if |css| > |Prefix| + |Suffix|
       && css[..|Prefix|] == Prefix
       && css[|css| - |Suffix|..] == Suffix
       && Canonical(css[|Prefix|..|css| - |Suffix|])
    then
      var mid := css[|Prefix|..|css| - |Suffix|];
      NatToDecimalOfDecimalValue(mid);
      assert css == css[..|Prefix|] + mid + css[|css| - |Suffix|..];
      Some(DecimalValue(mid))
    else None
  }

  /** Reading a produced declaration gives back its count. */
  lemma ParseGetInputWidth(val: Option<JsString>)
    ensures ParseInputWidth(GetInputWidth(val)) == Some(WidthCount(val))
  {
  }

  /** The outputs of GetInputWidth are exactly the declarations whose count is at least 1. */
  lemma GetInputWidthRange(css: string)
    ensures (exists val :: GetInputWidth(val) == css)
        <==> (ParseInputWidth(css).Some? && ParseInputWidth(css).value >= 1)
  {
    if exists val :: GetInputWidth(val) == css {
      var val :| GetInputWidth(val) == css;
      ParseGetInputWidth(val);
    }
    if ParseInputWidth(css).Some? && ParseInputWidth(css).value >= 1 {
      var n := ParseInputWidth(css).value;
      var s: JsString := seq(n, _ => 0x61 as CodeUnit);
      ParseGetInputWidth(Some(s));
      assert GetInputWidth(Some(s)) == css;
    }
  }

  /** `undefined` gives the one-character width. */
  lemma UndefinedWidth()
    ensures GetInputWidth(None) == "width:calc(1ch + 3rem)"
  {
  }

  /** The empty string is sized exactly like `undefined`. */
  lemma EmptyStringWidth()
    ensures GetInputWidth(Some([])) == GetInputWidth(None)
  {
  }

  /** A non-empty string is sized to its length in UTF-16 code units. */
  lemma NonEmptyWidth(s: JsString)
    requires s != []
    ensures ParseInputWidth(GetInputWidth(Some(s))) == Some(|s|)
  {
  }

  /** The width is never below one `ch`. */
  lemma WidthAtLeastOne(val: Option<JsString>)
    ensures ParseInputWidth(GetInputWidth(val)).Some?
    ensures ParseInputWidth(GetInputWidth(val)).value >= 1
  {
  }

  /** Two inputs get the same declaration exactly when their counts agree. */
  lemma SameWidthIffSameCount(v: Option<JsString>, w: Option<JsString>)
    ensures GetInputWidth(v) == GetInputWidth(w) <==> WidthCount(v) == WidthCount(w)
  {
  }

  /** Non-empty strings get the same declaration exactly when their lengths agree. */
  lemma SameWidthIffSameLength(a: JsString, b: JsString)
    requires a != [] && b != []
    ensures GetInputWidth(Some(a)) == GetInputWidth(Some(b)) <==> |a| == |b|
  {
  }

  /** A longer non-empty string gets a strictly larger count; widths never shrink as strings grow. */
  lemma LongerIsWider(a: JsString, b: JsString)
    requires |a| < |b|
    ensures WidthCount(Some(a)) <= WidthCount(Some(b))
    ensures a != [] ==> WidthCount(Some(a)) < WidthCount(Some(b))
  {
  }
}
