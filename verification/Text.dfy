/** The string operations of Python that the models use, on strings of code points. */
module Text {

  /** `str.isspace` on one character, also the set `str.strip` and `str.split` remove. */
  predicate IsSpace(c: char) {
    || '\t' <= c <= '\r'
    || '\U{1C}' <= c <= ' '
    || c in ['\U{85}', '\U{A0}', '\U{1680}', '\U{2028}', '\U{2029}', '\U{202F}', '\U{205F}', '\U{3000}']
    || '\U{2000}' <= c <= '\U{200A}'
  }

  predicate Blank(s: string) {
    forall i :: 0 <= i < |s| ==> IsSpace(s[i])
  }

  /** The first position at or after `i` that is not white space. */
  function SkipSpaces(s: string, i: nat): (j: nat)
    requires i <= |s|
    ensures i <= j <= |s| && (j < |s| ==> !IsSpace(s[j]))
    ensures forall k :: i <= k < j ==> IsSpace(s[k])
    decreases |s| - i
  {
    if i < |s| && IsSpace(s[i]) then SkipSpaces(s, i + 1) else i
  }

  /** One past the last position in `[i, j)` that is not white space; `i` when there is none. */
  function TrimEnd(s: string, i: nat, j: nat): (e: nat)
    requires i <= j <= |s|
    ensures i <= e <= j && (i < e ==> !IsSpace(s[e - 1]))
    ensures forall k :: e <= k < j ==> IsSpace(s[k])
  {
    if i < j && IsSpace(s[j - 1]) then TrimEnd(s, i, j - 1) else j
  }

  /** `str.strip`. */
  function Strip(s: string): (t: string)
    ensures t == [] <==> Blank(s)
    ensures t != [] ==> !IsSpace(t[0]) && !IsSpace(t[|t| - 1])
  {
    var i := SkipSpaces(s, 0);
    s[i..TrimEnd(s, i, |s|)]
  }

  /** What `strip` removes is white space, at both ends. */
  lemma StripIs(s: string) returns (i: nat, j: nat)
    ensures i <= j <= |s| && Strip(s) == s[i..j] && Blank(s[..i]) && Blank(s[j..])
  {
    i := SkipSpaces(s, 0);
    j := TrimEnd(s, i, |s|);
  }

  /** Case folding of the ASCII letters. */
  function Fold(s: string): (t: string)
    ensures |t| == |s|
  {
    seq(|s|, i requires 0 <= i < |s| => if 'A' <= s[i] <= 'Z' then s[i] - 'A' + 'a' else s[i])
  }

  /** The same letter, in either case. */
  predicate SameLetter(a: char, b: char) {
    a == b || ('A' <= a <= 'Z' && b == a - 'A' + 'a') || ('A' <= b <= 'Z' && a == b - 'A' + 'a')
  }

  predicate SameLetters(s: string, t: string) {
    |s| == |t| && forall i :: 0 <= i < |s| ==> SameLetter(s[i], t[i])
  }

  /** Folding tells strings apart exactly when they differ in more than case. */
  lemma FoldIff(s: string, t: string)
    ensures Fold(s) == Fold(t) <==> SameLetters(s, t)
  {
    if Fold(s) == Fold(t) {
      forall i | 0 <= i < |s| ensures SameLetter(s[i], t[i]) {
        assert Fold(s)[i] == Fold(t)[i];
      }
    }
  }

  /** Length of the leading run of characters that are all spaces, or all not. */
  function Run(s: string, space: bool): (n: nat)
    ensures n <= |s|
    ensures n == 0 <==> s == [] || IsSpace(s[0]) != space
  {
    if s == [] || IsSpace(s[0]) != space then 0 else 1 + Run(s[1..], space)
  }

  /** `" ".join(s.split())`. */
  function CollapseSpaces(s: string): string
    decreases |s|
  {
    var word := s[Run(s, true)..];
    var n := Run(word, false);
    if word == [] then [] else
    var rest := CollapseSpaces(word[n..]);
    if rest == [] then word[..n] else word[..n] + " " + rest
  }

  lemma {:induction false} RunOverSpaces(spaces: string, s: string)
    requires Blank(spaces)
    ensures Run(spaces + s, true) == |spaces| + Run(s, true)
  {
    if spaces == [] {
      assert spaces + s == s;
    } else {
      assert (spaces + s)[1..] == spaces[1..] + s;
      RunOverSpaces(spaces[1..], s);
    }
  }

  /** White space before the words does not matter. */
  lemma LeadingSpacesCollapse(spaces: string, s: string)
    requires Blank(spaces)
    ensures CollapseSpaces(spaces + s) == CollapseSpaces(s)
  {
    RunOverSpaces(spaces, s);
    assert (spaces + s)[Run(spaces + s, true)..] == s[Run(s, true)..];
  }

  /** `tuple(dict.fromkeys(values))`: first occurrences only. */
  function FirstOnly(values: seq<string>): (t: seq<string>)
    ensures forall i, j :: 0 <= i < j < |t| ==> t[i] != t[j]
    ensures forall v :: v in t <==> v in values
    ensures t == [] <==> values == []
  {
    if values == [] then [] else
    var front, last := FirstOnly(values[..|values| - 1]), values[|values| - 1];
    assert forall v :: v in values <==> v in values[..|values| - 1] || v == last;
    if last in front then front else front + [last]
  }

  function FirstIndex(values: seq<string>, v: string): (i: nat)
    requires v in values
    ensures i < |values| && values[i] == v && v !in values[..i]
  {
    var front := values[..|values| - 1];
    if v in front then FirstIndex(front, v) else |values| - 1
  }

  lemma FrontIndex(values: seq<string>, v: string)
    requires values != [] && v in values[..|values| - 1]
    ensures v in values && FirstIndex(values, v) == FirstIndex(values[..|values| - 1], v) < |values| - 1
  {
  }

  /** First occurrences stay in their order. */
  lemma {:induction false} FirstOnlyKeepsOrder(values: seq<string>)
    ensures forall i, j :: 0 <= i < j < |FirstOnly(values)| ==>
      FirstIndex(values, FirstOnly(values)[i]) < FirstIndex(values, FirstOnly(values)[j])
  {
    if values != [] {
      var front, last := values[..|values| - 1], values[|values| - 1];
      var t, kept := FirstOnly(values), FirstOnly(front);
      FirstOnlyKeepsOrder(front);
      assert forall v :: v in kept <==> v in front;
      assert t == if last in kept then kept else kept + [last];
      forall i, j | 0 <= i < j < |t| ensures FirstIndex(values, t[i]) < FirstIndex(values, t[j]) {
        assert t[i] == kept[i] && kept[i] in kept;
        FrontIndex(values, t[i]);
        if j < |kept| {
          assert t[j] == kept[j] && kept[j] in kept;
          FrontIndex(values, t[j]);
          assert FirstIndex(front, kept[i]) < FirstIndex(front, kept[j]);
        } else {
          assert t[j] == last && last !in front;
          assert FirstIndex(values, last) == |values| - 1;
        }
      }
    }
  }

  function Stripped(values: seq<string>): (t: seq<string>)
    ensures |t| == |values| && forall i :: 0 <= i < |values| ==> t[i] == Strip(values[i])
  {
    seq(|values|, i requires 0 <= i < |values| => Strip(values[i]))
  }

  /** `tuple(dict.fromkeys(item.strip() for item in values))`. */
  function Unique(values: seq<string>): (t: seq<string>)
    ensures forall i, j :: 0 <= i < j < |t| ==> t[i] != t[j]
    ensures t == [] <==> values == []
  {
    FirstOnly(Stripped(values))
  }

  /** `" ".join(value.casefold().split())`. */
  function Normalize(s: string): string {
    CollapseSpaces(Fold(s))
  }

  predicate OccursAt(text: string, part: string, i: nat)
    requires i <= |text|
  {
    part <= text[i..]
  }

  /** `part in text`. */
  predicate Contains(text: string, part: string) {
    exists i :: 0 <= i <= |text| && OccursAt(text, part, i)
  }

  /** `text.find(part, from)`: the first occurrence from there on, or -1. */
  function Find(text: string, part: string, from: nat): (i: int)
    ensures i == -1 || (from <= i <= |text| && OccursAt(text, part, i))
    ensures i == -1 ==> forall k :: from <= k <= |text| ==> !OccursAt(text, part, k)
    ensures i >= 0 ==> forall k :: from <= k < i ==> !OccursAt(text, part, k)
    decreases |text| - from
  {
    if from > |text| then -1 else if OccursAt(text, part, from) then from else Find(text, part, from + 1)
  }

  /** `text.rfind(part)`: the last occurrence, or -1. */
  function RFind(text: string, part: string): (i: int)
    ensures i == -1 || (0 <= i <= |text| && OccursAt(text, part, i))
    ensures forall k :: i < k <= |text| ==> k < 0 || !OccursAt(text, part, k)
  {
    LastFrom(text, part, |text|)
  }

  function LastFrom(text: string, part: string, n: nat): (i: int)
    requires n <= |text|
    ensures i == -1 || (0 <= i <= n && OccursAt(text, part, i))
    ensures forall k :: i < k <= n ==> k < 0 || !OccursAt(text, part, k)
  {
    if OccursAt(text, part, n) then n else if n == 0 then -1 else LastFrom(text, part, n - 1)
  }
}
