/**
 * The text preview on an entry card: the note trimmed, cut to 120
 * characters, or a placeholder when nothing is left.
 */
module EntryCard {

  /** The characters String.prototype.trim removes: white space and line terminators. */
  predicate IsTrimmable(c: char) {
    || c == '\t' || c == '\n' || c == '\U{000B}' || c == '\U{000C}' || c == '\r' || c == ' '
    || c == '\U{00A0}' || c == '\U{1680}' || ('\U{2000}' <= c <= '\U{200A}')
    || c == '\U{2028}' || c == '\U{2029}' || c == '\U{202F}' || c == '\U{205F}'
    || c == '\U{3000}' || c == '\U{FEFF}'
  }

  predicate AllTrimmable(s: string) {
    forall i :: 0 <= i < |s| ==> IsTrimmable(s[i])
  }

  /** Drops the leading trimmable characters: what is left is a suffix of `s`. */
  function TrimStart(s: string): (r: string)
    ensures |r| <= |s| && r == s[|s| - |r|..]
    ensures AllTrimmable(s[..|s| - |r|])
    ensures r != [] ==> !IsTrimmable(r[0])
  {
    if s != [] && IsTrimmable(s[0]) then
      var r := TrimStart(s[1..]);
      assert s[..|s| - |r|] == [s[0]] + s[1..][..|s| - 1 - |r|];
      r
    else s
  }

  /** Drops the trailing trimmable characters: what is left is a prefix of `s`. */
  function TrimEnd(s: string): (r: string)
    ensures |r| <= |s| && r == s[..|r|]
    ensures AllTrimmable(s[|r|..])
    ensures r != [] ==> !IsTrimmable(r[|r| - 1])
  {
    if s != [] && IsTrimmable(s[|s| - 1]) then
      var r := TrimEnd(s[..|s| - 1]);
      assert s[|r|..] == s[..|s| - 1][|r|..] + [s[|s| - 1]];
      r
    else s
  }

  function Trim(s: string): string {
    TrimEnd(TrimStart(s))
  }

  /** The trimmed text is a slice of the original with only trimmable characters around it. */
  lemma TrimIsSlice(s: string)
    ensures exists i, j :: 0 <= i <= j <= |s| && Trim(s) == s[i..j]
                           && AllTrimmable(s[..i]) && AllTrimmable(s[j..])
  {
    var t := TrimStart(s);
    var i := |s| - |t|;
    var j := i + |Trim(s)|;
    assert Trim(s) == s[i..j];
    assert s[j..] == t[|Trim(s)|..];
  }

  /** Nothing is left exactly when every character is trimmable. */
  lemma TrimEmptyIff(s: string)
    ensures Trim(s) == [] <==> AllTrimmable(s)
  {
  }

  /** '（テキストなし）', "(no text)". */
  const Placeholder := "\U{FF08}\U{30C6}\U{30AD}\U{30B9}\U{30C8}\U{306A}\U{3057}\U{FF09}"

  const PreviewLength := 120

  /** `entry.text.trim().slice(0, 120) || placeholder` */
  function Preview(text: string): (r: string)
    ensures r != []
    ensures AllTrimmable(text) ==> r == Placeholder
    ensures !AllTrimmable(text) ==> |r| <= PreviewLength && |r| <= |Trim(text)| && r == Trim(text)[..|r|] && !IsTrimmable(r[0])
    ensures !AllTrimmable(text) && |Trim(text)| <= PreviewLength ==> r == Trim(text)
    ensures !AllTrimmable(text) && |Trim(text)| > PreviewLength ==> r == Trim(text)[..PreviewLength]
  {
    var t := Trim(text);
    TrimEmptyIff(text);
    var cut := if |t| <= PreviewLength then t else t[..PreviewLength];
    if cut == [] then Placeholder else cut
  }
}
