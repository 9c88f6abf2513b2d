/** Product-name normalisation and the order pandas uses for string group keys.

    The source folds a name with NFKD decomposition, an ASCII-only re-encoding
    that drops every other character, `lower()` and `strip()`. Decomposition needs
    the Unicode tables and is not part of this model: names arrive here already
    decomposed, so an accented letter is its base letter followed by a combining
    mark, which the ASCII filter drops. */
module Text {

  /** The characters Python's `str.strip()` removes that can survive the ASCII
      filter: TAB, LF, VT, FF, CR (9-13), the separators 0x1C-0x1F and SPACE (32). */
  predicate IsSpace(c: char) {
    var n := c as int;
    (9 <= n <= 13) || (28 <= n <= 32)
  }

  predicate IsAscii(c: char) {
    (c as int) < 128
  }

  predicate IsUpper(c: char) {
    'A' <= c <= 'Z'
  }

  /** `lower()` on an ASCII character. */
  function ToLower(c: char): (d: char)
    ensures !IsUpper(d)
    ensures IsAscii(c) ==> IsAscii(d)
    ensures !IsUpper(c) ==> d == c
    ensures IsUpper(c) ==> d as int == c as int + 32
  {
    if IsUpper(c) then (c as int + 32) as char else c
  }

  predicate AllAscii(s: string) {
    forall i :: 0 <= i < |s| ==> IsAscii(s[i])
  }

  predicate NoUpper(s: string) {
    forall i :: 0 <= i < |s| ==> !IsUpper(s[i])
  }

  /** Neither end of `s` is a whitespace character. */
  predicate Stripped(s: string) {
    s == [] || (!IsSpace(s[0]) && !IsSpace(s[|s| - 1]))
  }

  /** `encode('ASCII', 'ignore').decode('utf-8')`: every non-ASCII character is dropped. */
  function AsciiOnly(s: string): (r: string)
    ensures AllAscii(r)
    ensures |r| <= |s|
    ensures forall c :: c in r <==> c in s && IsAscii(c)
  {
    if s == [] then []
    else (if IsAscii(s[0]) then [s[0]] else []) + AsciiOnly(s[1..])
  }

  /** The filter works character by character: it keeps the order and the
      repetitions of what it keeps. */
  lemma {:induction false} AsciiOnlyConcat(a: string, b: string)
    ensures AsciiOnly(a + b) == AsciiOnly(a) + AsciiOnly(b)
  {
    if a == [] {
      assert a + b == b;
    } else {
      var c, t := a[0], a[1..];
      assert a + b == [c] + (t + b);
      AsciiOnlyConcat(t, b);
      AsciiOnlyCons(c, t + b);
      AsciiOnlyCons(c, t);
      var h := if IsAscii(c) then [c] else [];
      calc {
        AsciiOnly(a + b);
        AsciiOnly([c] + (t + b));
        h + AsciiOnly(t + b);
        h + (AsciiOnly(t) + AsciiOnly(b));
        { ConcatAssoc(h, AsciiOnly(t), AsciiOnly(b)); }
        (h + AsciiOnly(t)) + AsciiOnly(b);
        { assert a == [c] + t; }
        AsciiOnly(a) + AsciiOnly(b);
      }
    }
  }

  lemma ConcatAssoc<T>(x: seq<T>, y: seq<T>, z: seq<T>)
    ensures x + (y + z) == (x + y) + z
  {
  }

  lemma AsciiOnlyCons(c: char, s: string)
    ensures AsciiOnly([c] + s) == (if IsAscii(c) then [c] else []) + AsciiOnly(s)
  {
    assert ([c] + s)[1..] == s;
  }

  function Lower(s: string): (r: string)
    ensures |r| == |s| && NoUpper(r)
    ensures forall i :: 0 <= i < |s| ==> r[i] == ToLower(s[i])
    ensures AllAscii(s) ==> AllAscii(r)
  {
    seq(|s|, i requires 0 <= i < |s| => ToLower(s[i]))
  }

  function TrimLeft(s: string): (r: string)
    ensures r == [] || !IsSpace(r[0])
    ensures |r| <= |s| && r == s[|s| - |r|..]
    ensures forall k :: 0 <= k < |s| - |r| ==> IsSpace(s[k])
  {
    if s != [] && IsSpace(s[0]) then TrimLeft(s[1..]) else s
  }

  function TrimRight(s: string): (r: string)
    ensures r == [] || !IsSpace(r[|r| - 1])
    ensures |r| <= |s| && r == s[..|r|]
    ensures forall k :: |r| <= k < |s| ==> IsSpace(s[k])
  {
    if s != [] && IsSpace(s[|s| - 1]) then TrimRight(s[..|s| - 1]) else s
  }

  /** `strip()`: whitespace removed from both ends, and nothing else. */
  function Strip(s: string): (r: string)
    ensures Stripped(r)
    ensures forall c :: c in r ==> c in s
    ensures exists i, j ::
      && 0 <= i <= j <= |s| && r == s[i..j]
      && forall k :: (0 <= k < i || j <= k < |s|) ==> IsSpace(s[k])
  {
    var t := TrimLeft(s);
    var r := TrimRight(t);
    TrimBoth(s, t, r);
    r
  }

  lemma TrimBoth(s: string, t: string, r: string)
    requires |t| <= |s| && t == s[|s| - |t|..] && forall k :: 0 <= k < |s| - |t| ==> IsSpace(s[k])
    requires |r| <= |t| && r == t[..|r|] && forall k :: |r| <= k < |t| ==> IsSpace(t[k])
    ensures exists i, j ::
      && 0 <= i <= j <= |s| && r == s[i..j]
      && forall k :: (0 <= k < i || j <= k < |s|) ==> IsSpace(s[k])
    ensures forall c :: c in r ==> c in s
  {
    var i, j := |s| - |t|, |s| - |t| + |r|;
    assert r == s[i..j];
    forall k | j <= k < |s| ensures IsSpace(s[k]) {
      assert s[k] == t[k - i];
    }
  }

  /** The name folding of `sanitize_dataframe`, after decomposition. The result
      is ASCII, has no upper-case letter and no surrounding whitespace. */
  function Fold(s: string): (r: string)
    ensures IsFolded(r)
  {
    var r := Strip(Lower(AsciiOnly(s)));
    assert forall i :: 0 <= i < |r| ==> r[i] in Lower(AsciiOnly(s));
    r
  }

  lemma {:induction false} AsciiOnlyOfAscii(s: string)
    requires AllAscii(s)
    ensures AsciiOnly(s) == s
  {
    if s != [] {
      AsciiOnlyOfAscii(s[1..]);
    }
  }

  lemma LowerOfLower(s: string)
    requires NoUpper(s)
    ensures Lower(s) == s
  {
  }

  lemma {:induction false} StripOfStripped(s: string)
    requires Stripped(s)
    ensures Strip(s) == s
  {
  }

  /** A name that is already folded: what `Fold` returns. */
  predicate IsFolded(s: string) {
    AllAscii(s) && NoUpper(s) && Stripped(s)
  }

  /** Folding changes nothing in a folded name. */
  lemma FoldOfFolded(s: string)
    requires IsFolded(s)
    ensures Fold(s) == s
  {
    AsciiOnlyOfAscii(s);
    LowerOfLower(s);
    StripOfStripped(s);
  }

  /** "Pantalón" decomposed: an `o` followed by the combining acute accent U+0301. */
  function PantalonName(): string {
    "Pantalo" + ['\U{0301}'] + "n"
  }

  /** The decomposed "Pantalón" folds to "pantalon". */
  lemma FoldPantalon()
    ensures Fold(PantalonName()) == "pantalon"
  {
    var s := PantalonName();
    var a := AsciiOnly(s);
    PantalonAscii();
    assert a == "Pantalon";
    PantalonLower(a);
    PantalonStrip(Lower(a));
  }

  lemma PantalonStrip(l: string)
    requires l == "pantalon"
    ensures Strip(l) == l
  {
    assert l[0] == 'p' && l[|l| - 1] == 'n';
    StripOfStripped(l);
  }

  lemma PantalonAscii()
    ensures AsciiOnly(PantalonName()) == "Pantalon"
  {
    AsciiOnlyDropsOne("Pantalo", '\U{0301}', "n");
  }

  /** One character outside ASCII between two ASCII runs is dropped. */
  lemma AsciiOnlyDropsOne(a: string, c: char, b: string)
    requires AllAscii(a) && AllAscii(b) && !IsAscii(c)
    ensures AsciiOnly(a + [c] + b) == a + b
  {
    AsciiOnlyConcat(a + [c], b);
    AsciiOnlyConcat(a, [c]);
    AsciiOnlyOfAscii(a);
    AsciiOnlyOfAscii(b);
    AsciiOnlyDropsChar(c);
    assert a + [] == a;
  }

  lemma AsciiOnlyDropsChar(c: char)
    requires !IsAscii(c)
    ensures AsciiOnly([c]) == []
  {
    assert [c][1..] == [];
  }

  lemma PantalonLower(a: string)
    requires a == "Pantalon"
    ensures Lower(a) == "pantalon"
  {
    assert ToLower('P') == 'p';
    assert forall i :: 1 <= i < 8 ==> !IsUpper(a[i]);
  }

  /** A name in capitals between blanks folds to the bare lower-case name. */
  lemma FoldCamisa()
    ensures Fold(" CAMISA ") == "camisa"
  {
    AsciiOnlyOfAscii(" CAMISA ");
    CamisaLower(" CAMISA ");
    CamisaStrip(" camisa ");
  }

  lemma CamisaLower(s: string)
    requires s == " CAMISA "
    ensures Lower(s) == " camisa "
  {
    assert ToLower('C') == 'c' && ToLower('A') == 'a' && ToLower('M') == 'm';
    assert ToLower('I') == 'i' && ToLower('S') == 's';
  }

  lemma CamisaStrip(s: string)
    requires s == " camisa "
    ensures Strip(s) == "camisa"
  {
    assert s[1..] == "camisa ";
    assert TrimLeft("camisa ") == "camisa ";
    assert "camisa "[..6] == "camisa";
    assert TrimRight("camisa") == "camisa";
  }

  /** Folding twice is folding once: two spellings that fold to the same name
      stay together however often the table is sanitised. */
  lemma FoldIdempotent(s: string)
    ensures Fold(Fold(s)) == Fold(s)
  {
    FoldOfFolded(Fold(s));
  }

  /** Python's `<` on `str`: code-point lexicographic order, a proper prefix first. */
  predicate StrLess(a: string, b: string)
    decreases |a|
  {
    if a == [] then b != []
    else if b == [] then false
    else if a[0] != b[0] then a[0] < b[0]
    else StrLess(a[1..], b[1..])
  }

  lemma {:induction false} StrLessIrreflexive(a: string)
    ensures !StrLess(a, a)
    decreases |a|
  {
    if a != [] {
      StrLessIrreflexive(a[1..]);
    }
  }

  lemma {:induction false} StrLessTransitive(a: string, b: string, c: string)
    requires StrLess(a, b) && StrLess(b, c)
    ensures StrLess(a, c)
    decreases |a|
  {
    if a != [] && b != [] && c != [] && a[0] == b[0] && b[0] == c[0] {
      StrLessTransitive(a[1..], b[1..], c[1..]);
    }
  }

  lemma {:induction false} StrLessTotal(a: string, b: string)
    requires a != b
    ensures StrLess(a, b) || StrLess(b, a)
    decreases |a|
  {
    if a != [] && b != [] && a[0] == b[0] {
      assert a == [a[0]] + a[1..] && b == [b[0]] + b[1..];
      StrLessTotal(a[1..], b[1..]);
    }
  }
}
