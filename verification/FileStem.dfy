/** File names for cached tracks: "<artist> - <title>", made safe, and the first one not yet taken. */
module FileStem {
  import opened Prelude

  // ----- Characters -----

  predicate IsControl(c: char) {
    var n := c as int;
    n < 0x20 || 0x7F <= n < 0xA0
  }

  /** Unicode's White_Space property. */
  predicate IsWhitespace(c: char) {
    var n := c as int;
    9 <= n <= 13 || n == 0x20 || n == 0x85 || n == 0xA0 || n == 0x1680 || 0x2000 <= n <= 0x200A
    || n == 0x2028 || n == 0x2029 || n == 0x202F || n == 0x205F || n == 0x3000
  }

  function Utf8Len(c: char): nat {
    var n := c as int;
    if n < 0x80 then 1 else if n < 0x800 then 2 else if n < 0x1_0000 then 3 else 4
  }

  /** A character's bytes in UTF-8 (section 3 of RFC 3629). */
  function Utf8(c: char): Bytes {
    var n := c as int;
    if n < 0x80 then [n]
    else if n < 0x800 then [0xC0 + n / 64, 0x80 + n % 64]
    else if n < 0x1_0000 then [0xE0 + n / 4096, 0x80 + n / 64 % 64, 0x80 + n % 64]
    else [0xF0 + n / 262_144, 0x80 + n / 4096 % 64, 0x80 + n / 64 % 64, 0x80 + n % 64]
  }

  /** The character number that bytes of UTF-8 stand for. */
  function Scalar(b: Bytes): int {
    var at := (i: int) => if 0 <= i < |b| then b[i] as int else 0;
    if at(0) < 0x80 then at(0)
    else if at(0) < 0xE0 then (at(0) - 0xC0) * 64 + (at(1) - 0x80)
    else if at(0) < 0xF0 then (at(0) - 0xE0) * 4096 + (at(1) - 0x80) * 64 + (at(2) - 0x80)
    else (at(0) - 0xF0) * 262_144 + (at(1) - 0x80) * 4096 + (at(2) - 0x80) * 64 + (at(3) - 0x80)
  }

  /** The lengths added up are those of the encoding, which can be undone. */
  lemma Utf8LenIs(c: char)
    ensures |Utf8(c)| == Utf8Len(c) && Scalar(Utf8(c)) == c as int
  {
    var n := c as int;
    assert n == n / 64 * 64 + n % 64;
    assert n / 64 == n / 4096 * 64 + n / 64 % 64;
    assert n / 4096 == n / 262_144 * 64 + n / 4096 % 64;
  }

  function Utf8Text(s: string): Bytes {
    if s == "" then [] else Utf8Text(s[..|s| - 1]) + Utf8(s[|s| - 1])
  }

  lemma {:induction false} Utf8TotalIs(s: string)
    ensures Utf8Total(s) == |Utf8Text(s)|
  {
    if s != "" {
      Utf8TotalIs(s[..|s| - 1]);
      Utf8LenIs(s[|s| - 1]);
    }
  }

  function Utf8Total(s: string): nat {
    if s == "" then 0 else Utf8Total(s[..|s| - 1]) + Utf8Len(s[|s| - 1])
  }

  // ----- Steps of the name -----

  function Blank(c: char): char {
    if IsControl(c) || IsWhitespace(c) || c == '/' || c == '\\' then ' ' else c
  }

  /** Blanks collapsed to single spaces, none at the front. */
  function Clean(s: string): string {
    if s == "" then ""
    else
      var r, c := Clean(s[..|s| - 1]), Blank(s[|s| - 1]);
      if c != ' ' then r + [c]
      else if r != "" && r[|r| - 1] != ' ' then r + " "
      else r
  }

  function TrimFront(s: string, cut: char -> bool): string {
    if s != "" && cut(s[0]) then TrimFront(s[1..], cut) else s
  }

  function TrimBack(s: string, cut: char -> bool): string {
    if s != "" && cut(s[|s| - 1]) then TrimBack(s[..|s| - 1], cut) else s
  }

  function Trim(s: string, cut: char -> bool): string {
    TrimBack(TrimFront(s, cut), cut)
  }

  const MAX_STEM: nat := 180

  /** The longest prefix of at most 180 UTF-8 bytes. */
  function Shorten(s: string): string {
    if Utf8Total(s) <= MAX_STEM then s else Shorten(s[..|s| - 1])
  }

  function DotOrSpace(): char -> bool {
    c => c == '.' || c == ' '
  }

  function Stem(artist: string, name: string): string {
    var stem := Trim(Shorten(Trim(Clean(artist + " - " + name), DotOrSpace())), c => IsWhitespace(c));
    if stem == "" then "track" else stem
  }

  // ----- What every stem satisfies -----

  /** No separator, no control character, and no white space but plain spaces. */
  predicate Plain(s: string) {
    forall i :: 0 <= i < |s| ==> s[i] == Blank(s[i])
  }

  lemma {:induction false} CleanPlain(s: string)
    ensures Plain(Clean(s))
  {
    if s != "" {
      CleanPlain(s[..|s| - 1]);
    }
  }

  lemma {:induction false} CleanKeeps(s: string, c: char)
    requires c in s && Blank(c) == c && c != ' '
    ensures c in Clean(s)
  {
    var front, last := s[..|s| - 1], s[|s| - 1];
    if last != c {
      assert s == front + [last];
      CleanKeeps(front, c);
    }
  }

  lemma {:induction false} TrimFrontFacts(s: string, cut: char -> bool)
    ensures var t := TrimFront(s, cut);
      && |t| <= |s| && t == s[|s| - |t|..] && (t != "" ==> !cut(t[0]))
      && (forall c :: c in s && !cut(c) ==> c in t)
  {
    if s != "" && cut(s[0]) {
      TrimFrontFacts(s[1..], cut);
      assert s == [s[0]] + s[1..];
    }
  }

  lemma {:induction false} TrimBackFacts(s: string, cut: char -> bool)
    ensures var t := TrimBack(s, cut);
      && t <= s && (t != "" ==> !cut(t[|t| - 1])) && (s != "" && !cut(s[0]) ==> t != "")
      && (forall c :: c in s && !cut(c) ==> c in t)
  {
    if s != "" && cut(s[|s| - 1]) {
      TrimBackFacts(s[..|s| - 1], cut);
      assert s == s[..|s| - 1] + [s[|s| - 1]];
    }
  }

  lemma {:induction false} ShortenFacts(s: string)
    ensures Shorten(s) <= s && Utf8Total(Shorten(s)) <= MAX_STEM
    ensures s != "" ==> Shorten(s) != ""
  {
    if Utf8Total(s) > MAX_STEM {
      ShortenFacts(s[..|s| - 1]);
    }
  }

  lemma {:induction false} Utf8Prefix(s: string, n: nat)
    requires n <= |s|
    ensures Utf8Total(s[..n]) <= Utf8Total(s)
  {
    if n < |s| {
      assert s[..|s| - 1][..n] == s[..n];
      Utf8Prefix(s[..|s| - 1], n);
    } else {
      assert s[..n] == s;
    }
  }

  /** The cleaned and trimmed name is non-empty: the dash between artist and title survives. */
  lemma TrimmedFacts(artist: string, name: string)
    ensures var t := Trim(Clean(artist + " - " + name), DotOrSpace());
      t != "" && Plain(t) && t[0] != '.' && t[0] != ' '
  {
    var all := artist + " - " + name;
    var cleaned := Clean(all);
    assert all[|artist| + 1] == '-';
    CleanPlain(all);
    CleanKeeps(all, '-');
    TrimFrontFacts(cleaned, DotOrSpace());
    var front := TrimFront(cleaned, DotOrSpace());
    TrimBackFacts(front, DotOrSpace());
    assert '-' in TrimBack(front, DotOrSpace());
  }

  lemma ShortenedFacts(t: string)
    requires t != "" && Plain(t) && t[0] != '.' && t[0] != ' '
    ensures var stem := Trim(Shorten(t), c => IsWhitespace(c));
      && stem != "" && Utf8Total(stem) <= MAX_STEM && Plain(stem)
      && stem[0] != '.' && stem[0] != ' ' && stem[|stem| - 1] != ' '
  {
    ShortenFacts(t);
    var short := Shorten(t);
    var white := (c: char) => IsWhitespace(c);
    assert short[0] == t[0] == Blank(t[0]);
    assert TrimFront(short, white) == short;
    TrimBackFacts(short, white);
    var stem := TrimBack(short, white);
    Utf8Prefix(short, |stem|);
    assert short[..|stem|] == stem;
  }

  /** The characters that become blanks, by number: controls, white space and the two separators. */
  predicate Blanked(n: int) {
    n <= 0x20 || n == 0x2F || n == 0x5C || 0x7F <= n <= 0xA0 || n == 0x1680 || 0x2000 <= n <= 0x200A
    || n == 0x2028 || n == 0x2029 || n == 0x202F || n == 0x205F || n == 0x3000
  }

  lemma BlankIff(c: char)
    ensures Blank(c) == if Blanked(c as int) then ' ' else c
  {
  }

  /**
   For every artist and title the stem is non-empty, at most 180 bytes of UTF-8, free of separators, control
   characters and all white space but single plain spaces, and starts with neither a dot nor a blank; the
   program's "track" fallback is never needed.
   */
  lemma StemIsSafe(artist: string, name: string)
    ensures var stem := Stem(artist, name);
      && stem != "" && |Utf8Text(stem)| <= 180
      && (forall i :: 0 <= i < |stem| ==> stem[i] == ' ' || !Blanked(stem[i] as int))
      && stem[0] != '.' && stem[0] != ' ' && stem[|stem| - 1] != ' '
      && stem == Trim(Shorten(Trim(Clean(artist + " - " + name), DotOrSpace())), c => IsWhitespace(c))
  {
    TrimmedFacts(artist, name);
    ShortenedFacts(Trim(Clean(artist + " - " + name), DotOrSpace()));
    var stem := Stem(artist, name);
    Utf8TotalIs(stem);
    forall i | 0 <= i < |stem| ensures stem[i] == ' ' || !Blanked(stem[i] as int) {
      BlankIff(stem[i]);
    }
  }

  // ----- What the stem says -----

  /** The runs of other characters between blanks. */
  function Words(s: string): (words: seq<string>)
    ensures s != "" && Blank(s[|s| - 1]) != ' ' ==> words != []
  {
    if s == "" then []
    else
      var words, c := Words(s[..|s| - 1]), s[|s| - 1];
      if Blank(c) == ' ' then words
      else if |s| >= 2 && Blank(s[|s| - 2]) != ' ' then words[..|words| - 1] + [words[|words| - 1] + [c]]
      else words + [[c]]
  }

  /** Words with one space between each two. */
  function Spaced(words: seq<string>): string {
    if words == [] then "" else if |words| == 1 then words[0]
    else Spaced(words[..|words| - 1]) + " " + words[|words| - 1]
  }

  lemma SpacedAdd(words: seq<string>, w: string)
    ensures Spaced(words + [w]) == if words == [] then w else Spaced(words) + " " + w
  {
    assert (words + [w])[..|words|] == words;
  }

  lemma SpacedExtend(front: seq<string>, w: string, c: char)
    ensures Spaced(front + [w + [c]]) == Spaced(front + [w]) + [c]
  {
    SpacedAdd(front, w + [c]);
    SpacedAdd(front, w);
    assert Spaced(front) + " " + (w + [c]) == Spaced(front) + " " + w + [c];
  }

  predicate EndsBlank(s: string) {
    s != "" && Blank(s[|s| - 1]) == ' '
  }

  lemma {:induction false} WordsPlain(s: string)
    ensures forall w :: w in Words(s) ==> w != "" && forall i :: 0 <= i < |w| ==> Blank(w[i]) != ' ' && w[i] != ' '
  {
    if s != "" {
      WordsPlain(s[..|s| - 1]);
    }
  }

  lemma {:induction false} SpacedEnd(words: seq<string>)
    requires words != [] && forall w :: w in words ==> w != "" && forall i :: 0 <= i < |w| ==> w[i] != ' '
    ensures Spaced(words) != "" && Spaced(words)[|Spaced(words)| - 1] != ' '
  {
    assert words[|words| - 1] in words;
  }

  /** The words, and a space behind them if a blank was. */
  function Cleaned(s: string): string {
    Spaced(Words(s)) + if EndsBlank(s) && Words(s) != [] then " " else ""
  }

  /** Cleaning keeps the words, in order, one space between each two, none before, and one behind if a blank was. */
  lemma {:induction false} CleanIsSpaced(s: string)
    ensures Clean(s) == Cleaned(s)
  {
    if s != "" {
      var front, c := s[..|s| - 1], s[|s| - 1];
      CleanIsSpaced(front);
      assert s == front + [c];
      BlankIff(c);
      if Blank(c) != ' ' {
        CleanedAdd(front, c);
      } else {
        CleanedBlank(front, c);
      }
    }
  }

  lemma CleanedBlank(front: string, c: char)
    requires Blank(c) == ' '
    ensures var r := Cleaned(front);
      Cleaned(front + [c]) == if r != "" && r[|r| - 1] != ' ' then r + " " else r
  {
    var s, words := front + [c], Words(front);
    assert s[..|s| - 1] == front;
    WordsPlain(front);
    if words != [] {
      SpacedEnd(words);
    }
    assert Spaced(words) + "" == Spaced(words);
  }

  lemma CleanedAdd(front: string, c: char)
    requires Blank(c) == c && c != ' '
    ensures Cleaned(front + [c]) == Cleaned(front) + [c]
  {
    var s, words := front + [c], Words(front);
    assert s[..|s| - 1] == front;
    if front != "" {
      assert s[|s| - 2] == front[|front| - 1];
    }
    if front != "" && Blank(front[|front| - 1]) != ' ' {
      var lead, last := words[..|words| - 1], words[|words| - 1];
      assert words == lead + [last];
      SpacedExtend(lead, last, c);
    } else {
      SpacedAdd(words, [c]);
    }
    assert Spaced(words) + "" == Spaced(words);
  }

  /** Trimming takes off exactly what is to be cut at both ends. */
  lemma TrimIs(s: string, cut: char -> bool, i: nat, j: nat)
    requires i < j <= |s| && !cut(s[i]) && !cut(s[j - 1])
    requires (forall k :: 0 <= k < i ==> cut(s[k])) && forall k :: j <= k < |s| ==> cut(s[k])
    ensures Trim(s, cut) == s[i..j]
  {
    TrimFrontIs(s, cut, i);
    TrimBackIs(s[i..], cut, j - i);
    assert s[i..][..j - i] == s[i..j];
  }

  lemma {:induction false} TrimFrontIs(s: string, cut: char -> bool, i: nat)
    requires i < |s| && !cut(s[i]) && forall k :: 0 <= k < i ==> cut(s[k])
    ensures TrimFront(s, cut) == s[i..]
  {
    if i > 0 {
      TrimFrontIs(s[1..], cut, i - 1);
    }
  }

  lemma {:induction false} TrimBackIs(s: string, cut: char -> bool, j: nat)
    requires 0 < j <= |s| && !cut(s[j - 1]) && forall k :: j <= k < |s| ==> cut(s[k])
    ensures TrimBack(s, cut) == s[..j]
    decreases |s|
  {
    if j < |s| {
      TrimBackIs(s[..|s| - 1], cut, j);
      assert s[..|s| - 1][..j] == s[..j];
    } else {
      assert s[..j] == s;
    }
  }

  /** A space behind makes no difference to the first trim. */
  lemma TrimSpaceBehind(s: string)
    requires exists i :: 0 <= i < |s| && s[i] != '.' && s[i] != ' '
    ensures Trim(s + " ", DotOrSpace()) == Trim(s, DotOrSpace())
  {
    var i, j := Core(s);
    TrimIs(s, DotOrSpace(), i, j);
    assert (s + " ")[i..j] == s[i..j];
    TrimIs(s + " ", DotOrSpace(), i, j);
  }

  /** The ends of what is left after trimming. */
  lemma Core(s: string) returns (i: nat, j: nat)
    requires exists k :: 0 <= k < |s| && s[k] != '.' && s[k] != ' '
    ensures i < j <= |s| && !DotOrSpace()(s[i]) && !DotOrSpace()(s[j - 1])
    ensures (forall k :: 0 <= k < i ==> DotOrSpace()(s[k])) && forall k :: j <= k < |s| ==> DotOrSpace()(s[k])
  {
    i, j := 0, |s|;
    while DotOrSpace()(s[i])
      invariant i < |s| && forall k :: 0 <= k < i ==> DotOrSpace()(s[k])
      decreases |s| - i
    {
      i := i + 1;
    }
    while DotOrSpace()(s[j - 1])
      invariant i < j <= |s| && forall k :: j <= k < |s| ==> DotOrSpace()(s[k])
      decreases j
    {
      j := j - 1;
    }
  }

  /**
   What the stem is: the words of "<artist> - <title>" with one space between each two, dots and spaces cut
   off at the ends, as much of it as fits 180 bytes, and white space cut off at the ends.
   */
  lemma StemIsWords(artist: string, name: string)
    ensures Stem(artist, name) ==
      Trim(Shorten(Trim(Spaced(Words(artist + " - " + name)), DotOrSpace())), c => IsWhitespace(c))
  {
    var all := artist + " - " + name;
    var spaced := Spaced(Words(all));
    StemIsSafe(artist, name);
    CleanIsSpaced(all);
    assert all[|artist| + 1] == '-';
    CleanKeeps(all, '-');
    assert '-' in spaced;
    TrimSpaceBehind(spaced);
    assert spaced + "" == spaced;
  }

  /** A name with nothing to clean, trim or cut stays as it is. */
  lemma StemOfCleanName(artist: string, name: string)
    requires var all := artist + " - " + name;
      && (forall i :: 0 <= i < |all| ==> all[i] == ' ' || !Blanked(all[i] as int))
      && (forall i :: 0 < i < |all| ==> !(all[i - 1] == ' ' && all[i] == ' '))
      && all[0] != '.' && all[0] != ' ' && all[|all| - 1] != '.' && all[|all| - 1] != ' ' && |Utf8Text(all)| <= 180
    ensures Stem(artist, name) == artist + " - " + name
  {
    var all := artist + " - " + name;
    StemIsSafe(artist, name);
    CleanSame(all);
    TrimIs(all, DotOrSpace(), 0, |all|);
    assert all[0..|all|] == all;
    Utf8TotalIs(all);
    BlankIff(all[0]);
    BlankIff(all[|all| - 1]);
    TrimIs(all, c => IsWhitespace(c), 0, |all|);
  }

  lemma {:induction false} CleanSame(s: string)
    requires forall i :: 0 <= i < |s| ==> s[i] == ' ' || !Blanked(s[i] as int)
    requires forall i :: 0 < i < |s| ==> !(s[i - 1] == ' ' && s[i] == ' ')
    requires s != "" ==> s[0] != ' '
    ensures Clean(s) == s
  {
    if s != "" {
      CleanSame(s[..|s| - 1]);
      BlankIff(s[|s| - 1]);
      assert s == s[..|s| - 1] + [s[|s| - 1]];
    }
  }

  // ----- The program's loops -----

  /** What is kept is the longest prefix of at most 180 bytes. */
  lemma {:induction false} ShortenAt(s: string, n: nat)
    requires n <= |s| && Utf8Total(s[..n]) <= 180
    requires n < |s| ==> Utf8Total(s[..n + 1]) > 180
    ensures Shorten(s) == s[..n]
  {
    if n < |s| {
      Utf8Prefix(s, n + 1);
      var front := s[..|s| - 1];
      assert front[..n] == s[..n];
      if n < |front| {
        assert front[..n + 1] == s[..n + 1];
      }
      ShortenAt(front, n);
    } else {
      assert s[..n] == s;
    }
  }

  method FileStem(artist: string, name: string) returns (stem: string)
    ensures stem == Stem(artist, name)
  {
    var all := artist + " - " + name;
    var cleaned := "";
    for i := 0 to |all|
      invariant cleaned == Clean(all[..i])
    {
      assert all[..i + 1][..i] == all[..i];
      var c := all[i];
      var ch := if IsControl(c) || IsWhitespace(c) || c == '/' || c == '\\' then ' ' else c;
      if ch == ' ' {
        if cleaned != "" && cleaned[|cleaned| - 1] != ' ' {
          cleaned := cleaned + " ";
        }
      } else {
        cleaned := cleaned + [ch];
      }
    }
    assert all[..|all|] == all;
    cleaned := Trim(cleaned, DotOrSpace());

    var short, bytes, n := "", 0, 0;
    while n < |cleaned|
      invariant n <= |cleaned| && short == cleaned[..n] && bytes == Utf8Total(short) <= MAX_STEM
    {
      if bytes + Utf8Len(cleaned[n]) > MAX_STEM {
        break;
      }
      assert cleaned[..n + 1][..n] == cleaned[..n];
      bytes := bytes + Utf8Len(cleaned[n]);
      short := short + [cleaned[n]];
      n := n + 1;
    }
    assert n < |cleaned| ==> cleaned[..n + 1][..n] == cleaned[..n];
    ShortenAt(cleaned, n);
    short := Trim(short, c => IsWhitespace(c));
    stem := if short == "" then "track" else short;
  }
}
