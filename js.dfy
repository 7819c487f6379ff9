/** JavaScript value semantics the request handlers rely on: `String.prototype.trim`,
    truthiness, and the `x || default` / `x?.trim() || null` idioms used to normalise
    request bodies.

    A request-body field that the handlers treat as a string is modelled as an
    `Option<string>` (None stands for `undefined` or `null`); a numeric field as an
    `Option<int>`. */
module Js {

  datatype Option<+T> = None | Some(value: T)

  datatype Result<+T, +E> = Success(value: T) | Failure(error: E)

  /** The characters ECMAScript's `trim` removes: WhiteSpace and LineTerminator. */
  predicate IsSpace(c: char) {
    || c == '\t' || c == '\n' || c == '\U{000B}' || c == '\U{000C}' || c == '\r' || c == ' '
    || c == '\U{00A0}' || c == '\U{1680}' || ('\U{2000}' <= c <= '\U{200A}')
    || c == '\U{2028}' || c == '\U{2029}' || c == '\U{202F}' || c == '\U{205F}'
    || c == '\U{3000}' || c == '\U{FEFF}'
  }

  predicate AllSpace(s: string) {
    forall i :: 0 <= i < |s| ==> IsSpace(s[i])
  }

  /** Text with no whitespace at either end and at least one character: what a
      non-blank string becomes after `trim`. */
  predicate Clean(s: string) {
    s != [] && !IsSpace(s[0]) && !IsSpace(s[|s| - 1])
  }

  predicate CleanOrNull(o: Option<string>) {
    o.None? || Clean(o.value)
  }

  /** Whitespace only in `s[lo..hi]`. */
  predicate SpaceBetween(s: string, lo: nat, hi: nat)
    requires lo <= hi <= |s|
  {
    forall j :: lo <= j < hi ==> IsSpace(s[j])
  }

  /** Where the text of `s` starts, looking from `from` on: past the leading whitespace. */
  function TextStart(s: string, from: nat): (k: nat)
    requires from <= |s|
    ensures from <= k <= |s| && SpaceBetween(s, from, k)
    ensures k == |s| || !IsSpace(s[k])
    decreases |s| - from
  {
    if from < |s| && IsSpace(s[from]) then TextStart(s, from + 1) else from
  }

  /** Where the text of `s[..upto]` ends, looking back no further than `lo`: before the
      trailing whitespace. */
  function TextEnd(s: string, lo: nat, upto: nat): (k: nat)
    requires lo <= upto <= |s|
    ensures lo <= k <= upto && SpaceBetween(s, k, upto)
    ensures k == lo || !IsSpace(s[k - 1])
    decreases upto
  {
    if lo < upto && IsSpace(s[upto - 1]) then TextEnd(s, lo, upto - 1) else upto
  }

  /** `s.trim()`: `s` with its leading and trailing whitespace removed; what is left is
      the slice of `s` between whitespace before it and whitespace after it. */
  function Trim(s: string): (r: string)
    ensures r == [] <==> AllSpace(s)
    ensures r == [] || Clean(r)
    ensures var i := TextStart(s, 0);
      i + |r| <= |s| && s[i..i + |r|] == r && SpaceBetween(s, 0, i) && SpaceBetween(s, i + |r|, |s|)
  {
    var lo := TextStart(s, 0);
    var hi := TextEnd(s, lo, |s|);
    assert hi == lo ==> SpaceBetween(s, 0, |s|);
    s[lo..hi]
  }

  /** Trimming text that is already clean leaves it as it is. */
  lemma TrimClean(s: string)
    requires Clean(s)
    ensures Trim(s) == s
  {
    assert TextStart(s, 0) == 0;
    assert TextEnd(s, 0, |s|) == |s|;
  }

  /** `trim` is idempotent. */
  lemma TrimTwice(s: string)
    ensures Trim(Trim(s)) == Trim(s)
  {
    if Trim(s) != [] {
      TrimClean(Trim(s));
    }
  }

  /** JavaScript truthiness of a string field: present and not "". */
  predicate TextTruthy(v: Option<string>) {
    v.Some? && v.value != ""
  }

  /** JavaScript truthiness of a numeric field: present and not 0. */
  predicate NumTruthy(v: Option<int>) {
    v.Some? && v.value != 0
  }

  /** `!x || x.trim() === ''`: the test every required string field goes through. */
  predicate Blank(v: Option<string>) {
    !TextTruthy(v) || Trim(v.value) == ""
  }

  lemma BlankMeansAllSpace(v: Option<string>)
    ensures Blank(v) <==> v.None? || AllSpace(v.value)
  {
  }

  /** `x?.trim() || null`: an optional string field as it is stored. */
  function TrimmedOrNull(v: Option<string>): (r: Option<string>)
    ensures r.None? <==> Blank(v)
    ensures r.Some? ==> Clean(r.value) && r.value == Trim(v.value)
  {
    if v.None? then None
    else
      var t := Trim(v.value);
      if t == "" then None else Some(t)
  }

  /** `x || null` on a string field that is not trimmed. */
  function TextOrNull(v: Option<string>): (r: Option<string>)
    ensures r.None? <==> !TextTruthy(v)
    ensures r.Some? ==> r == v && r.value != ""
  {
    if TextTruthy(v) then v else None
  }

  /** `x || null` on a numeric field. */
  function NumOrNull(v: Option<int>): (r: Option<int>)
    ensures r.None? <==> !NumTruthy(v)
    ensures r.Some? ==> r == v && r.value != 0
  {
    if NumTruthy(v) then v else None
  }

  /** `x || d` on a string field. */
  function TextOr(v: Option<string>, d: string): (r: string)
    ensures !TextTruthy(v) ==> r == d
    ensures TextTruthy(v) ==> r == v.value && r != ""
    ensures d != "" ==> r != ""
  {
    if TextTruthy(v) then v.value else d
  }

  /** `x || d` on a numeric field: every falsy value, 0 included, becomes `d`. */
  function NumOr(v: Option<int>, d: int): (r: int)
    ensures !NumTruthy(v) ==> r == d
    ensures NumTruthy(v) ==> r == v.value && r != 0
    ensures d != 0 ==> r != 0
  {
    if NumTruthy(v) then v.value else d
  }
}
