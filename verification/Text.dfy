/** Spaces around a text. */
module Text {
  predicate IsSpace(c: char) {
    || c == ' ' || '\t' <= c <= '\r' || c == '\U{0085}' || c == '\U{00A0}' || c == '\U{1680}'
    || '\U{2000}' <= c <= '\U{200A}' || c == '\U{2028}' || c == '\U{2029}' || c == '\U{202F}' || c == '\U{205F}'
    || c == '\U{3000}'
  }

  function TrimLeft(s: string): string {
    if s != [] && IsSpace(s[0]) then TrimLeft(s[1..]) else s
  }

  function TrimRight(s: string): string {
    if s != [] && IsSpace(s[|s| - 1]) then TrimRight(s[..|s| - 1]) else s
  }

  function TrimSpace(s: string): string {
    TrimRight(TrimLeft(s))
  }

  lemma {:induction false} TrimsLeft(space: string, s: string)
    requires (forall i :: 0 <= i < |space| ==> IsSpace(space[i])) && s != [] && !IsSpace(s[0])
    ensures TrimLeft(space + s) == s
  {
    if space == [] {
      assert space + s == s;
    } else {
      TrimsLeft(space[1..], s);
      assert (space + s)[1..] == space[1..] + s;
    }
  }

  lemma {:induction false} TrimsRight(s: string, space: string)
    requires (forall i :: 0 <= i < |space| ==> IsSpace(space[i])) && s != [] && !IsSpace(s[|s| - 1])
    ensures TrimRight(s + space) == s
  {
    if space == [] {
      assert s + space == s;
    } else {
      var n := |space| - 1;
      TrimsRight(s, space[..n]);
      assert (s + space)[..|s + space| - 1] == s + space[..n];
    }
  }

  lemma {:induction false} Trims(before: string, text: string, after: string)
    requires text != [] && !IsSpace(text[0]) && !IsSpace(text[|text| - 1])
    requires forall i :: 0 <= i < |before| ==> IsSpace(before[i])
    requires forall i :: 0 <= i < |after| ==> IsSpace(after[i])
    ensures TrimSpace(before + text + after) == text
  {
    TrimsRight(text, after);
    assert before + text + after == before + (text + after);
    TrimsLeft(before, text + after);
  }

  /** Nothing is left of a text exactly if it is all spaces. */
  lemma {:induction false} BlankExactly(s: string)
    ensures TrimSpace(s) == "" <==> forall i :: 0 <= i < |s| ==> IsSpace(s[i])
  {
    LeftBlank(s);
    if TrimLeft(s) != "" {
      LeftStart(s);
      RightStart(TrimLeft(s));
    }
  }

  lemma {:induction false} LeftBlank(s: string)
    ensures TrimLeft(s) == "" <==> forall i :: 0 <= i < |s| ==> IsSpace(s[i])
  {
    if s != [] {
      LeftBlank(s[1..]);
      assert forall i :: 1 <= i < |s| ==> s[i] == s[1..][i - 1];
    }
  }

  lemma {:induction false} LeftStart(s: string)
    requires TrimLeft(s) != ""
    ensures !IsSpace(TrimLeft(s)[0])
  {
    if IsSpace(s[0]) {
      LeftStart(s[1..]);
    }
  }

  lemma {:induction false} RightStart(s: string)
    requires s != [] && !IsSpace(s[0])
    ensures TrimRight(s) != "" && TrimRight(s)[0] == s[0]
    decreases |s|
  {
    if IsSpace(s[|s| - 1]) {
      RightStart(s[..|s| - 1]);
    }
  }
}
