/** The string operations that several models share. */
module Text {

  /** Index of the first occurrence, or -1. */
  function IndexOf(s: string, c: char): (i: int)
    ensures -1 <= i < |s|
    ensures i == -1 ==> c !in s
    ensures i >= 0 ==> s[i] == c && c !in s[..i]
  {
    if s == "" then -1
    else if s[0] == c then 0
    else
      var i := IndexOf(s[1..], c);
      if i < 0 then -1 else assert s[..i+1] == [s[0]] + s[1..][..i]; i + 1
  }

  lemma {:induction false} FirstAt(s: string, c: char, i: nat)
    requires i < |s| && s[i] == c && c !in s[..i]
    ensures IndexOf(s, c) == i
  {
    if i > 0 {
      assert s[0] == s[..i][0];
      assert s[1..][..i-1] == s[..i][1..];
      FirstAt(s[1..], c, i - 1);
    }
  }

  /** White space as Unicode defines it. */
  predicate IsSpace(c: char) {
    || '\t' <= c <= '\r' || c == ' ' || c == '\U{0085}' || c == '\U{00A0}' || c == '\U{1680}'
    || '\U{2000}' <= c <= '\U{200A}' || c == '\U{2028}' || c == '\U{2029}' || c == '\U{202F}'
    || c == '\U{205F}' || c == '\U{3000}'
  }

  function TrimLeft(s: string): string {
    if s != "" && IsSpace(s[0]) then TrimLeft(s[1..]) else s
  }

  function TrimRight(s: string): string {
    if s != "" && IsSpace(s[|s|-1]) then TrimRight(s[..|s|-1]) else s
  }

  function TrimSpace(s: string): string { TrimRight(TrimLeft(s)) }

  lemma NotBlank(s: string)
    requires s != "" && !IsSpace(s[0])
    ensures TrimSpace(s) != ""
  {
    TrimRightKeeps(s);
  }

  lemma {:induction false} TrimRightKeeps(s: string)
    requires s != "" && !IsSpace(s[0])
    ensures TrimRight(s) != ""
  {
    if IsSpace(s[|s|-1]) {
      TrimRightKeeps(s[..|s|-1]);
    }
  }
}
