/** Values shared by every handler: Ruby's nil-or-string and the blankness test
    (`v.nil? || v.strip.empty?`) that turns a write into a clear. */
module Common {

  datatype Option<T> = None | Some(value: T)

  /** The identifier every handler stores the playtag under (or a container-native
      spelling of it). */
  const PLAYTAG: string := "PLAYTAG"

  /** Characters Ruby's `String#strip` removes: NUL, tab, line feed, vertical tab,
      form feed, carriage return and space. */
  predicate IsStripped(c: char)
  {
    c == '\0' || c == '\t' || c == '\n' || c == '\U{000B}' || c == '\U{000C}' || c == '\r' || c == ' '
  }

  /** `s.strip.empty?`: every character of `s` is one `strip` removes. */
  predicate StripsToEmpty(s: string)
  {
    forall i :: 0 <= i < |s| ==> IsStripped(s[i])
  }

  /** `value.nil? || value.strip.empty?` — a value that means "clear the playtag". */
  predicate Blank(value: Option<string>)
  {
    value.None? || StripsToEmpty(value.value)
  }

  /** `String#lstrip`: `s` without its leading run of stripped characters. */
  function StripLeading(s: string): (r: string)
    ensures |r| <= |s| && r == s[|s| - |r|..]
    ensures r == [] || !IsStripped(r[0])
    ensures forall i :: 0 <= i < |s| - |r| ==> IsStripped(s[i])
  {
    if |s| > 0 && IsStripped(s[0]) then
      var r := StripLeading(s[1..]);
      assert forall i :: 1 <= i < |s| - |r| ==> s[i] == s[1..][i - 1];
      r
    else s
  }

  /** `String#rstrip`: `s` without its trailing run of stripped characters. */
  function StripTrailing(s: string): (r: string)
    ensures |r| <= |s| && r == s[..|r|]
    ensures r == [] || !IsStripped(r[|r| - 1])
    ensures forall i :: |r| <= i < |s| ==> IsStripped(s[i])
  {
    if |s| > 0 && IsStripped(s[|s| - 1]) then
      var r := StripTrailing(s[..|s| - 1]);
      assert forall i :: |r| <= i < |s| - 1 ==> s[i] == s[..|s| - 1][i];
      r
    else s
  }

  /** `String#strip`. */
  function Strip(s: string): string
  {
    StripTrailing(StripLeading(s))
  }

  /** The blankness test is `strip.empty?`: a present value is blank exactly when
      stripping it leaves nothing. */
  lemma BlankIsStripEmpty(s: string)
    ensures Blank(Some(s)) <==> Strip(s) == ""
  {
    var l := StripLeading(s);
    if Strip(s) == "" {
      assert l == [];
    }
  }

  /** The empty string and any whitespace-only string are blank; a string holding
      one printable character is not. */
  lemma BlankExamples()
    ensures Blank(None) && Blank(Some("")) && Blank(Some(" \t\n"))
    ensures !Blank(Some("v1; t=10-20"))
  {
    assert !IsStripped("v1; t=10-20"[0]);
  }
}
