/**
 * The string side of question answering: the context handed to the model, the
 * reference legend appended to its answer, and the colouring of `[RefN]` tags.
 * The refined queries, the search, and both model calls are parameters.
 */
module QaService {
  import opened Common
  import opened Strings
  import opened Json
  import opened Sorting

  // ANSI escape codes of the terminal colours used (colorama's `Fore` and `Style.RESET_ALL`).
  const Cyan: string := "\U{1B}[36m"
  const Green: string := "\U{1B}[32m"
  const Yellow: string := "\U{1B}[33m"
  const Magenta: string := "\U{1B}[35m"
  const Blue: string := "\U{1B}[34m"
  const Red: string := "\U{1B}[31m"
  const LightBlueEx: string := "\U{1B}[94m"
  const ResetAll: string := "\U{1B}[0m"

  /** `ref_colors`, cycled through by reference number. */
  const RefColors: seq<string> := [Cyan, Green, Yellow, Magenta, Blue, Red, LightBlueEx]

  /** The colour of reference `n`: `ref_colors[(n - 1) % 7]` with Python's non-negative `%`. */
  function ColorFor(n: nat): string
  {
    RefColors[(n - 1) % |RefColors|]
  }

  /** Reference 0 (a `[Ref0]` tag) wraps to the last colour, as `-1 % 7 == 6` in Python. */
  lemma ColorForZero()
    ensures ColorFor(0) == LightBlueEx
  {
    assert (0 - 1) % 7 == 6;
  }

  /** Colours repeat every seven references. */
  lemma ColorCycle(n: nat)
    ensures ColorFor(n + 7) == ColorFor(n)
  {
    assert (n + 7 - 1) % 7 == (n - 1) % 7;
  }

  /** References 1 to 7 get seven different colours, starting with cyan. */
  lemma FirstSevenDistinct(m: nat, n: nat)
    requires 1 <= m < n <= 7
    ensures ColorFor(m) != ColorFor(n)
    ensures ColorFor(1) == Cyan
  {
    assert RefColors[m - 1][2] != RefColors[n - 1][2] || RefColors[m - 1][3] != RefColors[n - 1][3];
  }

  /** The tag `[Ref<n>]` in decimal. */
  function Tag(n: nat): (r: string)
    ensures |r| >= 6
  {
    "[Ref" + NatToString(n) + "]"
  }

  /**
   * The number of digits of a tag matching `\[Ref(\d+)\]` at the start of `s`: the
   * digit run is greedy, so a tag matches exactly when the closing bracket follows it.
   */
  function TagMatch(s: string): (r: Option<nat>)
    ensures r.Some? ==> r.value > 0 && 5 + r.value <= |s| && AllDigits(s[4..4 + r.value])
  {
    if |s| >= 4 && s[..4] == "[Ref" then
      var k := DigitRun(s[4..]);
      if k > 0 && 4 + k < |s| && s[4 + k] == ']' then
        assert s[4..][..k] == s[4..4 + k];
        Some(k)
      else None
    else None
  }

  /** The reference numbers of the tags in `s`, as `re.finditer` finds them: leftmost first, without overlaps. */
  function Refs(s: string): seq<nat>
    decreases |s|
  {
    if |s| == 0 then []
    else
      match TagMatch(s)
      case Some(k) => [DigitsValue(s[4..4 + k])] + Refs(s[5 + k..])
      case None => Refs(s[1..])
  }

  /** Reading a printed tag back gives its number. */
  lemma RefsAfterTag(n: nat, rest: string)
    ensures Refs(Tag(n) + rest) == [n] + Refs(rest)
  {
    var d := NatToString(n);
    var s := Tag(n) + rest;
    TagMatchOfTag(n, rest);
    assert s[4..4 + |d|] == d;
    DigitsValueOfNatToString(n);
    assert s[5 + |d|..] == rest;
  }

  lemma TagMatchOfTag(n: nat, rest: string)
    ensures TagMatch(Tag(n) + rest) == Some(|NatToString(n)|)
  {
    var d := NatToString(n);
    var s := Tag(n) + rest;
    assert s[..4] == "[Ref";
    assert s[4..] == d + ("]" + rest);
    DigitRunOfDigits(d, "]" + rest);
    assert s[4 + |d|] == ']';
  }

  lemma {:induction false} DigitRunOfDigits(d: string, rest: string)
    requires AllDigits(d) && (|rest| == 0 || !('0' <= rest[0] <= '9'))
    ensures DigitRun(d + rest) == |d|
    decreases |d|
  {
    if |d| > 0 {
      AllDigitsAt(d, 0);
      DigitsTail(d);
      DigitRunOfDigits(d[1..], rest);
      assert (d + rest)[1..] == d[1..] + rest;
    }
  }

  lemma {:induction false} DigitsTail(d: string)
    requires AllDigits(d) && |d| > 0
    ensures AllDigits(d[1..])
    decreases |d|
  {
    if |d| > 1 {
      DigitsTail(d[..|d| - 1]);
      assert d[..|d| - 1][1..] == d[1..][..|d| - 2];
    }
  }

  /** The reference numbers in first-occurrence order without repeats: the keys of `ref_color_map`. */
  function Distinct(refs: seq<nat>): (r: seq<nat>)
    ensures forall n :: n in r <==> n in refs
    ensures forall i, j :: 0 <= i < j < |r| ==> r[i] != r[j]
  {
    if |refs| == 0 then []
    else
      var d := Distinct(refs[..|refs| - 1]);
      assert refs == refs[..|refs| - 1] + [refs[|refs| - 1]];
      if refs[|refs| - 1] in d then d else d + [refs[|refs| - 1]]
  }

  /** `ref_color_map`: one colour per distinct reference number. */
  function ColorMap(refs: seq<nat>): map<nat, string>
  {
    map n | n in refs :: ColorFor(n)
  }

  /** The loop over the matches that fills `ref_color_map`. */
  method BuildColorMap(refs: seq<nat>) returns (m: map<nat, string>, keys: seq<nat>)
    ensures m == ColorMap(refs)
    ensures keys == Distinct(refs)
  {
    m := map[];
    keys := [];
    var i := 0;
    while i < |refs|
      invariant 0 <= i <= |refs|
      invariant m == ColorMap(refs[..i]) && keys == Distinct(refs[..i])
    {
      assert refs[..i + 1] == refs[..i] + [refs[i]];
      m, keys := AddRef(m, keys, refs[..i], refs[i]);
      i := i + 1;
    }
    assert refs[..i] == refs;
  }

  /** One turn of that loop: a number not yet in the map gets its colour and joins the keys. */
  method AddRef(m: map<nat, string>, keys: seq<nat>, ghost pre: seq<nat>, refNum: nat)
    returns (m': map<nat, string>, keys': seq<nat>)
    requires m == ColorMap(pre) && keys == Distinct(pre)
    ensures m' == ColorMap(pre + [refNum]) && keys' == Distinct(pre + [refNum])
  {
    ColorMapStep(pre, refNum);
    m', keys' := m, keys;
    if refNum !in m {
      m' := m[refNum := ColorFor(refNum)];
      keys' := keys + [refNum];
    }
  }

  /** One more match: its number is added to the map and the keys when it is new. */
  lemma ColorMapStep(pre: seq<nat>, x: nat)
    ensures x in ColorMap(pre) <==> x in pre
    ensures ColorMap(pre + [x]) == if x in pre then ColorMap(pre) else ColorMap(pre)[x := ColorFor(x)]
    ensures Distinct(pre + [x]) == if x in pre then Distinct(pre) else Distinct(pre) + [x]
  {
    assert (pre + [x])[..|pre|] == pre;
    forall n ensures n in pre + [x] <==> n in pre || n == x {
    }
  }

  /** The order of `sorted(..., reverse=True)` on reference numbers. */
  function Desc(a: nat, b: nat): bool
  {
    a >= b
  }

  /** The reference numbers in the order the replacements run: highest first. */
  function HighlightKeys(text: string): seq<nat>
  {
    Sort(Distinct(Refs(text)), Desc)
  }

  /** `color + ref_tag + Style.RESET_ALL`. */
  function Colored(n: nat): string
  {
    ColorFor(n) + Tag(n) + ResetAll
  }

  /** `result.replace(ref_tag, colored_ref)` for each number of `ns` in turn. */
  function ApplyColors(text: string, ns: seq<nat>): string
  {
    if |ns| == 0 then text
    else
      var n := ns[|ns| - 1];
      ReplaceAll(ApplyColors(text, ns[..|ns| - 1]), Tag(n), Colored(n))
  }

  /** `_highlight_references` as a value. */
  function Highlight(text: string): string
  {
    ApplyColors(text, HighlightKeys(text))
  }

  /** `_highlight_references`: collect the colours, then replace the tags from the highest number down. */
  method HighlightReferences(text: string) returns (result: string)
    ensures result == Highlight(text)
  {
    var m, order := BuildColorMap(Refs(text));
    var keys := Sort(order, Desc);
    result := text;
    var i := 0;
    while i < |keys|
      invariant 0 <= i <= |keys|
      invariant result == ApplyColors(text, keys[..i])
    {
      var refNum := keys[i];
      assert refNum in multiset(order);
      var refTag := Tag(refNum);
      var coloredRef := m[refNum] + refTag + ResetAll;
      ApplyColorsStep(text, keys, i);
      result := ReplaceAll(result, refTag, coloredRef);
      i := i + 1;
    }
    assert keys[..i] == keys;
  }

  lemma ApplyColorsStep(text: string, keys: seq<nat>, i: nat)
    requires i < |keys|
    ensures ApplyColors(text, keys[..i + 1]) == ReplaceAll(ApplyColors(text, keys[..i]), Tag(keys[i]), Colored(keys[i]))
  {
    assert keys[..i + 1][..i] == keys[..i];
  }

  /** Text without tags is returned unchanged. */
  lemma NoTagsUnchanged(text: string)
    requires Refs(text) == []
    ensures Highlight(text) == text
  {
    assert Distinct(Refs(text)) == [];
  }

  /** A lone tag comes back wrapped in its colour and the reset code. */
  lemma LoneTagColored(n: nat)
    ensures Highlight(Tag(n)) == Colored(n)
  {
    var t := Tag(n);
    RefsAfterTag(n, "");
    assert t + "" == t;
    assert Refs("") == [];
    assert Distinct([n]) == [n];
    assert Sort([n], Desc) == [n];
    assert ApplyColors(t, [n]) == ReplaceAll(t, t, Colored(n));
    assert t[..|t|] == t && t[|t|..] == "";
  }

  /** Each distinct number is replaced once, from the highest down. */
  lemma HighlightOrder(text: string)
    ensures forall i, j :: 0 <= i < j < |HighlightKeys(text)| ==> HighlightKeys(text)[i] > HighlightKeys(text)[j]
    ensures forall n :: n in HighlightKeys(text) <==> n in Refs(text)
  {
    var d := Distinct(Refs(text));
    var ks := HighlightKeys(text);
    assert TotalPreorder(Desc);
    SortSorted(d, Desc);
    forall n ensures n in ks <==> n in d {
      assert n in ks <==> n in multiset(ks);
      assert n in d <==> n in multiset(d);
    }
    DistinctPermutation(d, ks);
  }

  /** A rearrangement of a sequence without repeats has no repeats. */
  lemma DistinctPermutation(d: seq<nat>, s: seq<nat>)
    requires forall i, j :: 0 <= i < j < |d| ==> d[i] != d[j]
    requires multiset(s) == multiset(d)
    ensures forall i, j :: 0 <= i < j < |s| ==> s[i] != s[j]
  {
    forall i, j | 0 <= i < j < |s| ensures s[i] != s[j] {
      if s[i] == s[j] {
        TwiceInMultiset(s, i, j);
        AtMostOnce(d, s[i]);
      }
    }
  }

  lemma TwiceInMultiset(s: seq<nat>, i: nat, j: nat)
    requires i < j < |s| && s[i] == s[j]
    ensures multiset(s)[s[i]] >= 2
  {
    assert s == s[..i] + [s[i]] + s[i + 1..j] + [s[j]] + s[j + 1..];
  }

  lemma {:induction false} AtMostOnce(d: seq<nat>, x: nat)
    requires forall i, j :: 0 <= i < j < |d| ==> d[i] != d[j]
    ensures multiset(d)[x] <= 1
  {
    if |d| > 0 {
      var front := d[..|d| - 1];
      assert d == front + [d[|d| - 1]];
      AtMostOnce(front, x);
      if d[|d| - 1] == x {
        assert x !in front;
      }
    }
  }

  // ---------------------------------------------------------------------------
  // Highlighting text with tags anywhere in it
  // ---------------------------------------------------------------------------

  /** The opening of every tag. */
  const RefOpen: string := "[Ref"

  /** `s` holds no `[Ref` anywhere: prose between tags. */
  ghost predicate RefFree(s: string)
  {
    forall i: nat :: !OccursAt(s, RefOpen, i)
  }

  /** A tag as it stands in text: coloured once its number is among `done`, plain otherwise. */
  function Piece(n: nat, done: set<nat>): string
  {
    if n in done then Colored(n) else Tag(n)
  }

  /**
   * Prose `ss[0]`, the tag of `ns[0]`, prose `ss[1]`, ..., the tag of the last number,
   * prose `ss[|ns|]`; the tags of the numbers in `done` coloured.
   */
  function Weave(ss: seq<string>, ns: seq<nat>, done: set<nat>): string
    requires |ss| == |ns| + 1
    decreases |ns|
  {
    if |ns| == 0 then ss[0]
    else ss[0] + (Piece(ns[0], done) + Weave(ss[1..], ns[1..], done))
  }

  ghost predicate AllRefFree(ss: seq<string>)
  {
    forall j :: 0 <= j < |ss| ==> RefFree(ss[j])
  }

  /** No `[Ref` starts inside `x` when `x` is followed by `y`. */
  predicate OpenFreeBefore(x: string, y: string)
  {
    forall i: nat :: i < |x| ==> !OccursAt(x + y, RefOpen, i)
  }

  /** Every `[` of `x` is followed, within `x`, by something other than `R`. */
  predicate Closed(x: string)
  {
    forall j :: 0 <= j < |x| && x[j] == '[' ==> j + 1 < |x| && x[j + 1] != 'R'
  }

  /** An occurrence of a tag is an occurrence of `[Ref`. */
  lemma TagOpens(t: string, m: nat, i: nat)
    requires OccursAt(t, Tag(m), i)
    ensures OccursAt(t, RefOpen, i)
  {
    assert t[i..i + 4] == t[i..i + |Tag(m)|][..4];
  }

  /** Tag-free prose followed by a tag, a colour code or nothing opens no tag of its own. */
  lemma SegmentOpenFree(s: string, y: string)
    requires RefFree(s) && (|y| == 0 || y[0] == '[' || y[0] == '\U{1B}')
    ensures OpenFreeBefore(s, y)
  {
    forall i: nat | i < |s|
      ensures !OccursAt(s + y, RefOpen, i)
    {
      if i + 4 <= |s| {
        assert (s + y)[i..i + 4] == s[i..i + 4];
        assert !OccursAt(s, RefOpen, i);
      } else if i + 4 <= |s + y| {
        assert (s + y)[i..i + 4][|s| - i] == y[0];
        assert RefOpen[|s| - i] != y[0];
      }
    }
  }

  lemma ClosedOpenFree(x: string, y: string)
    requires Closed(x)
    ensures OpenFreeBefore(x, y)
  {
    forall i: nat | i < |x|
      ensures !OccursAt(x + y, RefOpen, i)
    {
      if i + 4 <= |x + y| {
        if x[i] == '[' {
          assert (x + y)[i..i + 4][1] == x[i + 1] != 'R';
        } else {
          assert (x + y)[i..i + 4][0] == x[i] != '[';
        }
      }
    }
  }

  /** `replace` of a tag copies a stretch that opens no tag and goes on after it. */
  lemma OpenFreeSkip(x: string, y: string, m: nat)
    requires OpenFreeBefore(x, y)
    ensures ReplaceAll(x + y, Tag(m), Colored(m)) == x + ReplaceAll(y, Tag(m), Colored(m))
  {
    forall i: nat | i < |x|
      ensures !OccursAt(x + y, Tag(m), i)
    {
      if OccursAt(x + y, Tag(m), i) {
        TagOpens(x + y, m, i);
      }
    }
    ReplaceAllSkip(x + y, Tag(m), Colored(m), |x|);
    assert (x + y)[..|x|] == x && (x + y)[|x|..] == y;
  }

  /** The colour codes never open a tag. */
  lemma CodesClosed(n: nat)
    ensures Closed(ColorFor(n)) && Closed(ResetAll)
  {
    var k := (n - 1) % |RefColors|;
    assert Closed(Cyan) && Closed(Green) && Closed(Yellow) && Closed(Magenta);
    assert Closed(Blue) && Closed(Red) && Closed(LightBlueEx) && Closed(ResetAll);
    assert ColorFor(n) == RefColors[k];
  }

  /** After its first character, a tag holds no `[`. */
  lemma TagTailClosed(n: nat)
    ensures Closed(Tag(n)[1..])
  {
    var d := NatToString(n);
    var x := Tag(n)[1..];
    assert x == "Ref" + d + "]";
    NatToStringDigits(n);
    forall j | 0 <= j < |x|
      ensures x[j] != '['
    {
      if 3 <= j < 3 + |d| {
        assert x[j] == d[j - 3];
      }
    }
  }

  /** The digits of a tag sit right after `[Ref`, whatever follows the tag. */
  lemma TagDigitsAt(n: nat, y: string)
    ensures (Tag(n) + y)[4..4 + |NatToString(n)|] == NatToString(n)
  {
    var d := NatToString(n);
    assert Tag(n) + y == "[Ref" + d + ("]" + y);
  }

  /** A tag with another number is no occurrence of the tag of `m`, `[Ref1]` inside `[Ref10]` included. */
  lemma TagMismatch(n: nat, m: nat, y: string)
    requires n != m
    ensures !OccursAt(Tag(n) + y, Tag(m), 0)
  {
    var t := Tag(n) + y;
    if OccursAt(t, Tag(m), 0) {
      var dn, dm := NatToString(n), NatToString(m);
      var rest := t[|Tag(m)|..];
      assert t[..|Tag(m)|] == t[0..|Tag(m)|] == Tag(m);
      assert t == Tag(m) + rest;
      TagMatchOfTag(n, y);
      TagMatchOfTag(m, rest);
      assert |dn| == |dm|;
      TagDigitsAt(n, y);
      TagDigitsAt(m, rest);
      NatToStringInjective(n, m);
    }
  }

  /** `replace` of the tag of `m` copies the tag of any other number. */
  lemma TagSkip(n: nat, m: nat, z: string)
    requires n != m
    ensures ReplaceAll(Tag(n) + z, Tag(m), Colored(m)) == Tag(n) + ReplaceAll(z, Tag(m), Colored(m))
  {
    var t := Tag(n) + z;
    TagTailClosed(n);
    forall i: nat | i < |Tag(n)|
      ensures !OccursAt(t, Tag(m), i)
    {
      if i == 0 {
        TagMismatch(n, m, z);
      } else if OccursAt(t, Tag(m), i) {
        TagOpens(t, m, i);
        ClosedOpenFree(Tag(n)[1..], z);
        assert t[1..] == Tag(n)[1..] + z;
        assert t[1..][i - 1..i - 1 + 4] == t[i..i + 4];
        assert OccursAt(Tag(n)[1..] + z, RefOpen, i - 1);
      }
    }
    ReplaceAllSkip(t, Tag(m), Colored(m), |Tag(n)|);
    assert t[..|Tag(n)|] == Tag(n) && t[|Tag(n)|..] == z;
  }

  lemma PieceStart(n: nat, done: set<nat>)
    ensures |Piece(n, done)| > 0
    ensures Piece(n, done)[0] == '[' || Piece(n, done)[0] == '\U{1B}'
  {
    if n in done {
      assert ColorFor(n)[0] == '\U{1B}';
      assert Piece(n, done)[0] == ColorFor(n)[0];
    }
  }

  /** `replace` of the tag of `m` copies a coloured tag of another number. */
  lemma WrappedSkip(c: string, n: nat, e: string, m: nat, y: string)
    requires Closed(c) && Closed(e) && n != m
    ensures ReplaceAll(c + Tag(n) + e + y, Tag(m), Colored(m)) == c + Tag(n) + e + ReplaceAll(y, Tag(m), Colored(m))
  {
    var t, z := Tag(n), e + y;
    var ry := ReplaceAll(y, Tag(m), Colored(m));
    var rz := ReplaceAll(z, Tag(m), Colored(m));
    var rtz := ReplaceAll(t + z, Tag(m), Colored(m));
    assert c + t + e + y == c + (t + z);
    assert ReplaceAll(c + (t + z), Tag(m), Colored(m)) == c + rtz by {
      ClosedOpenFree(c, t + z);
      OpenFreeSkip(c, t + z, m);
    }
    assert rtz == t + rz by {
      TagSkip(n, m, z);
    }
    assert rz == e + ry by {
      ClosedOpenFree(e, y);
      OpenFreeSkip(e, y, m);
    }
    assert c + (t + (e + ry)) == c + t + e + ry;
  }

  lemma ColoredSkip(n: nat, m: nat, y: string)
    requires n != m
    ensures ReplaceAll(Colored(n) + y, Tag(m), Colored(m)) == Colored(n) + ReplaceAll(y, Tag(m), Colored(m))
  {
    CodesClosed(n);
    WrappedSkip(ColorFor(n), n, ResetAll, m, y);
  }

  /** `replace` of the tag of `m` colours one at the front. */
  lemma TagAtFront(m: nat, y: string)
    ensures ReplaceAll(Tag(m) + y, Tag(m), Colored(m)) == Colored(m) + ReplaceAll(y, Tag(m), Colored(m))
  {
    var t := Tag(m) + y;
    assert t[0..|Tag(m)|] == Tag(m);
    ReplaceAllAt(t, Tag(m), Colored(m));
    assert t[|Tag(m)|..] == y;
  }

  /** One `replace` turns the tag of `m` into its coloured form and leaves every other piece as it is. */
  lemma PieceStep(n: nat, done: set<nat>, m: nat, y: string)
    requires m !in done
    ensures ReplaceAll(Piece(n, done) + y, Tag(m), Colored(m)) == Piece(n, done + {m}) + ReplaceAll(y, Tag(m), Colored(m))
  {
    if n in done {
      ColoredSkip(n, m, y);
    } else if n == m {
      TagAtFront(m, y);
    } else {
      TagSkip(n, m, y);
    }
  }

  /** One turn of the replacement loop colours exactly the tags of `m`. */
  lemma {:induction false} WeaveStep(ss: seq<string>, ns: seq<nat>, done: set<nat>, m: nat)
    requires |ss| == |ns| + 1 && AllRefFree(ss) && m !in done
    ensures ReplaceAll(Weave(ss, ns, done), Tag(m), Colored(m)) == Weave(ss, ns, done + {m})
    decreases |ns|
  {
    if |ns| == 0 {
      SegmentOpenFree(ss[0], "");
      OpenFreeSkip(ss[0], "", m);
      assert ss[0] + "" == ss[0];
    } else {
      var rest := Piece(ns[0], done) + Weave(ss[1..], ns[1..], done);
      PieceStart(ns[0], done);
      assert rest[0] == Piece(ns[0], done)[0];
      SegmentOpenFree(ss[0], rest);
      OpenFreeSkip(ss[0], rest, m);
      PieceStep(ns[0], done, m, Weave(ss[1..], ns[1..], done));
      WeaveStep(ss[1..], ns[1..], done, m);
    }
  }

  /** The numbers of a list, as a set. */
  function Members(ks: seq<nat>): (r: set<nat>)
    ensures forall k :: k in r <==> k in ks
  {
    set k | k in ks
  }

  lemma MembersSnoc(ks: seq<nat>)
    requires |ks| > 0
    ensures Members(ks) == Members(ks[..|ks| - 1]) + {ks[|ks| - 1]}
  {
    assert ks == ks[..|ks| - 1] + [ks[|ks| - 1]];
  }

  /** Replacing the tags of distinct numbers one by one colours exactly the tags of those numbers. */
  lemma {:induction false} ApplyWeave(ss: seq<string>, ns: seq<nat>, ks: seq<nat>)
    requires |ss| == |ns| + 1 && AllRefFree(ss)
    requires forall i, j :: 0 <= i < j < |ks| ==> ks[i] != ks[j]
    ensures ApplyColors(Weave(ss, ns, {}), ks) == Weave(ss, ns, Members(ks))
    decreases |ks|
  {
    if |ks| == 0 {
      assert Members(ks) == {};
    } else {
      var front, last := ks[..|ks| - 1], ks[|ks| - 1];
      var w := Weave(ss, ns, {});
      assert ApplyColors(w, ks) == ReplaceAll(ApplyColors(w, front), Tag(last), Colored(last));
      ApplyWeave(ss, ns, front);
      assert last !in Members(front);
      MembersSnoc(ks);
      WeaveStep(ss, ns, Members(front), last);
    }
  }

  /** Which tags are coloured depends only on the numbers that occur. */
  lemma {:induction false} WeaveAgree(ss: seq<string>, ns: seq<nat>, d1: set<nat>, d2: set<nat>)
    requires |ss| == |ns| + 1 && forall n :: n in ns ==> (n in d1 <==> n in d2)
    ensures Weave(ss, ns, d1) == Weave(ss, ns, d2)
    decreases |ns|
  {
    if |ns| > 0 {
      WeaveAgree(ss[1..], ns[1..], d1, d2);
    }
  }

  /** Prose that opens no tag adds no reference. */
  lemma {:induction false} RefsSkip(s: string, y: string)
    requires OpenFreeBefore(s, y)
    ensures Refs(s + y) == Refs(y)
    decreases |s|
  {
    if |s| > 0 {
      var t := s + y;
      assert !OccursAt(t, RefOpen, 0);
      assert TagMatch(t).None? by {
        if |t| >= 4 {
          assert t[0..4] == t[..4];
        }
      }
      assert t[1..] == s[1..] + y;
      forall i: nat | i < |s[1..]|
        ensures !OccursAt(s[1..] + y, RefOpen, i)
      {
        assert !OccursAt(t, RefOpen, i + 1);
        if i + 4 <= |t[1..]| {
          assert t[1..][i..i + 4] == t[i + 1..i + 5];
        }
      }
      RefsSkip(s[1..], y);
    } else {
      assert s + y == y;
    }
  }

  /** The references found in prose with tags are the tags' numbers, in order. */
  lemma {:induction false} RefsWeave(ss: seq<string>, ns: seq<nat>)
    requires |ss| == |ns| + 1 && AllRefFree(ss)
    ensures Refs(Weave(ss, ns, {})) == ns
    decreases |ns|
  {
    if |ns| == 0 {
      SegmentOpenFree(ss[0], "");
      RefsSkip(ss[0], "");
      assert ss[0] + "" == ss[0];
    } else {
      var w := Weave(ss[1..], ns[1..], {});
      var rest := Tag(ns[0]) + w;
      assert Weave(ss, ns, {}) == ss[0] + rest;
      SegmentOpenFree(ss[0], rest);
      RefsSkip(ss[0], rest);
      RefsAfterTag(ns[0], w);
      RefsWeave(ss[1..], ns[1..]);
      assert ns == [ns[0]] + ns[1..];
    }
  }

  /**
   * `_highlight_references` on any text: prose with tags anywhere comes back with
   * every tag wrapped in its colour and the reset code, exactly once, and the prose unchanged.
   */
  lemma HighlightWeave(ss: seq<string>, ns: seq<nat>)
    requires |ss| == |ns| + 1 && AllRefFree(ss)
    ensures Highlight(Weave(ss, ns, {})) == Weave(ss, ns, Members(ns))
  {
    var text := Weave(ss, ns, {});
    var ks := HighlightKeys(text);
    RefsWeave(ss, ns);
    HighlightOrder(text);
    ApplyWeave(ss, ns, ks);
    WeaveAgree(ss, ns, Members(ks), Members(ns));
  }

  lemma WeaveOne(a: string, n: nat, b: string, done: set<nat>)
    ensures Weave([a, b], [n], done) == a + Piece(n, done) + b
  {
    assert [a, b][1..] == [b] && [n][1..] == [];
  }

  lemma WeaveTwo(a: string, n: nat, b: string, m: nat, c: string, done: set<nat>)
    ensures Weave([a, b, c], [n, m], done) == a + Piece(n, done) + b + Piece(m, done) + c
  {
    assert [a, b, c][1..] == [b, c] && [n, m][1..] == [m];
    WeaveOne(b, m, c, done);
  }

  /** A tag inside prose is wrapped, and the prose around it is left alone. */
  lemma TagInProse(a: string, n: nat, b: string)
    requires RefFree(a) && RefFree(b)
    ensures Highlight(a + Tag(n) + b) == a + Colored(n) + b
  {
    HighlightWeave([a, b], [n]);
    WeaveOne(a, n, b, {});
    WeaveOne(a, n, b, Members([n]));
  }

  /** Two tags in prose are both wrapped, each once, whether their numbers differ or not. */
  lemma TwoTagsInProse(a: string, n: nat, b: string, m: nat, c: string)
    requires RefFree(a) && RefFree(b) && RefFree(c)
    ensures Highlight(a + Tag(n) + b + Tag(m) + c) == a + Colored(n) + b + Colored(m) + c
  {
    HighlightWeave([a, b, c], [n, m]);
    WeaveTwo(a, n, b, m, c, {});
    WeaveTwo(a, n, b, m, c, Members([n, m]));
  }

  /** `[Ref1]` and `[Ref10]` are each coloured once: the shorter tag is not found inside the longer one. */
  lemma OneAndTen()
    ensures Highlight(Tag(1) + " " + Tag(10)) == Colored(1) + " " + Colored(10)
  {
    assert RefFree("") && RefFree(" ");
    TwoTagsInProse("", 1, " ", 10, "");
    assert "" + Tag(1) + " " + Tag(10) + "" == Tag(1) + " " + Tag(10);
    assert "" + Colored(1) + " " + Colored(10) + "" == Colored(1) + " " + Colored(10);
  }

  /** One search hit: the three `_source` fields the answer uses. */
  datatype Hit = Hit(textContent: string, title: string, pageNumber: Json)

  /** `[Ref{idx+1}] {text_content}`. */
  function ContextEntry(idx: nat, hit: Hit): string
  {
    Tag(idx + 1) + " " + hit.textContent
  }

  function ContextEntries(hits: seq<Hit>): (r: seq<string>)
    ensures |r| == |hits| && forall i :: 0 <= i < |hits| ==> r[i] == ContextEntry(i, hits[i])
  {
    seq(|hits|, i requires 0 <= i < |hits| => ContextEntry(i, hits[i]))
  }

  /** The context given to the model: the numbered entries, separated by a blank line. */
  function Context(hits: seq<Hit>): string
  {
    Join(ContextEntries(hits), "\n\n")
  }

  /** The `i`-th context entry starts with the tag of reference `i + 1`, the only tag before the hit's text. */
  lemma ContextNumbering(hits: seq<Hit>, i: nat)
    requires i < |hits|
    ensures Refs(ContextEntries(hits)[i]) == [i + 1] + Refs(hits[i].textContent)
  {
    var t := hits[i].textContent;
    assert ContextEntries(hits)[i] == Tag(i + 1) + (" " + t);
    RefsAfterTag(i + 1, " " + t);
    RefsSkipSpace(t);
  }

  lemma RefsSkipSpace(t: string)
    ensures Refs(" " + t) == Refs(t)
  {
    assert TagMatch(" " + t).None? by {
      assert (" " + t)[0] == ' ';
    }
    assert (" " + t)[1..] == t;
  }

  /** One legend line without its leading line break: `[Ref{idx+1}] Document: {title}, Page: {page_number}`. */
  function LegendBody(idx: nat, hit: Hit, pyStr: Json -> string): string
  {
    Tag(idx + 1) + " Document: " + hit.title + ", Page: " + pyStr(hit.pageNumber)
  }

  function LegendBodies(hits: seq<Hit>, pyStr: Json -> string): (r: seq<string>)
    ensures |r| == |hits| && forall i :: 0 <= i < |hits| ==> r[i] == LegendBody(i, hits[i], pyStr)
  {
    seq(|hits|, i requires 0 <= i < |hits| => LegendBody(i, hits[i], pyStr))
  }

  /** Each body on a line of its own: what `+= f"\n..."` appends. */
  function NewLines(bodies: seq<string>): string
  {
    if |bodies| == 0 then "" else "\n" + bodies[0] + NewLines(bodies[1..])
  }

  const LegendHead: string := "\n\nReferences:"

  /** The reference legend as a value: the heading, then one line per hit in hit order. */
  function Legend(hits: seq<Hit>, pyStr: Json -> string): string
  {
    if |hits| == 0 then LegendHead
    else
      var k := |hits| - 1;
      Legend(hits[..k], pyStr) + ("\n" + LegendBody(k, hits[k], pyStr))
  }

  lemma {:induction false} NewLinesSnoc(bodies: seq<string>, b: string)
    ensures NewLines(bodies + [b]) == NewLines(bodies) + "\n" + b
  {
    if |bodies| == 0 {
      assert bodies + [b] == [b];
    } else {
      assert (bodies + [b])[1..] == bodies[1..] + [b];
      NewLinesSnoc(bodies[1..], b);
    }
  }

  /** The legend is its heading followed by every body, each after a line break. */
  lemma {:induction false} LegendIsNewLines(hits: seq<Hit>, pyStr: Json -> string)
    ensures Legend(hits, pyStr) == LegendHead + NewLines(LegendBodies(hits, pyStr))
  {
    if |hits| > 0 {
      var k := |hits| - 1;
      var bodies := LegendBodies(hits, pyStr);
      LegendIsNewLines(hits[..k], pyStr);
      LegendBodiesPrefix(hits, pyStr, k);
      NewLinesSnoc(bodies[..k], bodies[k]);
      assert bodies[..k] + [bodies[k]] == bodies;
    }
  }

  lemma LegendBodiesPrefix(hits: seq<Hit>, pyStr: Json -> string, k: nat)
    requires k <= |hits|
    ensures LegendBodies(hits[..k], pyStr) == LegendBodies(hits, pyStr)[..k]
  {
  }

  /** The legend loop: `reference_legend += ...` once per hit, in hit order. */
  method BuildLegend(hits: seq<Hit>, pyStr: Json -> string) returns (legend: string)
    ensures legend == Legend(hits, pyStr)
  {
    legend := LegendHead;
    var idx := 0;
    while idx < |hits|
      invariant 0 <= idx <= |hits|
      invariant legend == Legend(hits[..idx], pyStr)
    {
      var hit := hits[idx];
      assert hits[..idx + 1][..idx] == hits[..idx];
      legend := legend + ("\n" + LegendBody(idx, hit, pyStr));
      idx := idx + 1;
    }
    assert hits[..idx] == hits;
  }

  /** Lines appended after a joined block extend the block. */
  lemma {:induction false} JoinNewLines(head: seq<string>, bodies: seq<string>)
    requires |head| >= 1
    ensures Join(head, "\n") + NewLines(bodies) == Join(head + bodies, "\n")
    decreases |bodies|
  {
    if |bodies| == 0 {
      assert head + bodies == head;
    } else {
      var h1 := head + [bodies[0]];
      var rest := bodies[1..];
      JoinAppend(head, [bodies[0]], "\n");
      assert Join(h1, "\n") == Join(head, "\n") + "\n" + bodies[0];
      JoinNewLines(h1, rest);
      assert h1 + rest == head + bodies;
      assert NewLines(bodies) == "\n" + bodies[0] + NewLines(rest);
    }
  }

  /**
   * Read line by line, the legend is two blank lines, the heading, and one line per
   * hit in order, when no title or page text holds a line break.
   */
  lemma LegendLines(hits: seq<Hit>, pyStr: Json -> string)
    requires forall i :: 0 <= i < |hits| ==> '\n' !in hits[i].title && '\n' !in pyStr(hits[i].pageNumber)
    ensures Split(Legend(hits, pyStr), '\n') == ["", "", "References:"] + LegendBodies(hits, pyStr)
  {
    LegendIsNewLines(hits, pyStr);
    LegendBodiesUnbroken(hits, pyStr);
    HeadedLines(LegendBodies(hits, pyStr));
  }

  /** Unbroken bodies after the heading split back into the heading's lines and the bodies. */
  lemma HeadedLines(bodies: seq<string>)
    requires forall i :: 0 <= i < |bodies| ==> '\n' !in bodies[i]
    ensures Split(LegendHead + NewLines(bodies), '\n') == ["", "", "References:"] + bodies
  {
    var head := ["", "", "References:"];
    HeadJoin();
    JoinNewLines(head, bodies);
    HeadUnbroken();
    UnbrokenConcat(head, bodies);
    SplitJoin(head + bodies, '\n');
  }

  lemma HeadJoin()
    ensures Join(["", "", "References:"], "\n") == LegendHead
  {
    JoinCons("", ["", "References:"], "\n");
    JoinCons("", ["References:"], "\n");
  }

  lemma UnbrokenConcat(a: seq<string>, b: seq<string>)
    requires forall i :: 0 <= i < |a| ==> '\n' !in a[i]
    requires forall i :: 0 <= i < |b| ==> '\n' !in b[i]
    ensures forall i :: 0 <= i < |a + b| ==> '\n' !in (a + b)[i]
  {
    assert forall i :: |a| <= i < |a + b| ==> (a + b)[i] == b[i - |a|];
  }

  lemma HeadUnbroken()
    ensures forall i :: 0 <= i < 3 ==> '\n' !in ["", "", "References:"][i]
  {
    var r := "References:";
    assert forall k :: 0 <= k < |r| ==> r[k] != '\n';
  }

  lemma LegendBodiesUnbroken(hits: seq<Hit>, pyStr: Json -> string)
    requires forall i :: 0 <= i < |hits| ==> '\n' !in hits[i].title && '\n' !in pyStr(hits[i].pageNumber)
    ensures forall i :: 0 <= i < |hits| ==> '\n' !in LegendBodies(hits, pyStr)[i]
  {
    forall i | 0 <= i < |hits| ensures '\n' !in LegendBodies(hits, pyStr)[i] {
      BodyUnbroken(i, hits[i], pyStr);
    }
  }

  lemma BodyUnbroken(idx: nat, hit: Hit, pyStr: Json -> string)
    requires '\n' !in hit.title && '\n' !in pyStr(hit.pageNumber)
    ensures '\n' !in LegendBody(idx, hit, pyStr)
  {
    TagUnbroken(idx + 1);
    DocumentUnbroken();
    PageUnbroken();
  }

  lemma DocumentUnbroken() ensures '\n' !in " Document: " {}
  lemma PageUnbroken() ensures '\n' !in ", Page: " {}

  lemma TagUnbroken(n: nat)
    ensures '\n' !in Tag(n)
  {
    NatToStringDigits(n);
    assert forall i :: 0 <= i < |Tag(n)| ==> Tag(n)[i] != '\n';
  }

  /** The hits of every query, in query order: `similar_chunks.extend(...)`. */
  function Gathered(queries: seq<string>, search: string -> seq<Hit>): seq<Hit>
  {
    if |queries| == 0 then [] else Gathered(queries[..|queries| - 1], search) + search(queries[|queries| - 1])
  }

  /** The reply when no document matched. */
  function Fallback(general: string): string
  {
    Yellow + "Note: No relevant documents found in the index. Providing a general answer:" + ResetAll + "\n\n" + general
  }

  /**
   * `answer_question` as a value: `answer` is the model's reply to the context and
   * the question, `general` its reply to the question alone.
   */
  function Answer(question: string, queries: seq<string>, search: string -> seq<Hit>,
                  answer: (string, string) -> string, general: string -> string, pyStr: Json -> string): string
  {
    var hits := Gathered(queries, search);
    if |hits| == 0 then Fallback(general(question))
    else Highlight(answer(Context(hits), question) + Legend(hits, pyStr))
  }

  /** `answer_question`: gather the hits of every query, then the fallback or the highlighted, referenced answer. */
  method AnswerQuestion(question: string, queries: seq<string>, search: string -> seq<Hit>,
                        answer: (string, string) -> string, general: string -> string, pyStr: Json -> string)
    returns (r: string)
    ensures r == Answer(question, queries, search, answer, general, pyStr)
  {
    var similar: seq<Hit> := [];
    var q := 0;
    while q < |queries|
      invariant 0 <= q <= |queries|
      invariant similar == Gathered(queries[..q], search)
    {
      assert queries[..q + 1][..q] == queries[..q] && queries[..q + 1][q] == queries[q];
      similar := similar + search(queries[q]);
      q := q + 1;
    }
    assert queries[..q] == queries;
    if |similar| == 0 {
      return Fallback(general(question));
    }
    var response := answer(Context(similar), question);
    var legend := BuildLegend(similar, pyStr);
    r := HighlightReferences(response + legend);
  }
}
