/** String operations that the importer applies to each line and each field:
    trimming surrounding whitespace, deleting a character everywhere,
    splitting on a separator, joining, and lower-casing. The functions carry
    no postconditions of their own; what they compute is stated by the
    lemmas after each of them. */
module Text {

  /** The characters Python's `str.strip()` removes when given no argument
      (the code points for which `str.isspace()` holds). */
  predicate IsSpace(c: char) {
    c == ' ' || ('\t' <= c <= '\r') || ('\U{1C}' <= c <= '\U{1F}') ||
    c == '\U{85}' || c == '\U{A0}' || c == '\U{1680}' ||
    ('\U{2000}' <= c <= '\U{200A}') || c == '\U{2028}' || c == '\U{2029}' ||
    c == '\U{202F}' || c == '\U{205F}' || c == '\U{3000}'
  }

  /** The length of the run of whitespace `s` starts with. */
  function LeadingSpaces(s: string): (n: nat)
    ensures n <= |s|
  {
    if s != [] && IsSpace(s[0]) then 1 + LeadingSpaces(s[1..]) else 0
  }

  /** The leading run is all whitespace and is maximal. */
  lemma {:induction false} LeadingSpacesSpec(s: string)
    ensures forall k :: 0 <= k < LeadingSpaces(s) ==> IsSpace(s[k])
    ensures LeadingSpaces(s) == |s| || !IsSpace(s[LeadingSpaces(s)])
  {
    if s != [] && IsSpace(s[0]) {
      LeadingSpacesSpec(s[1..]);
      assert forall k :: 1 <= k < LeadingSpaces(s) ==> s[k] == s[1..][k - 1];
    }
  }

  /** `s` without its trailing whitespace. */
  function TrimRight(s: string): string {
    if s != [] && IsSpace(s[|s| - 1]) then TrimRight(s[..|s| - 1]) else s
  }

  /** Trimming on the right keeps a prefix, drops only whitespace, and leaves
      no whitespace at the end. */
  lemma {:induction false} TrimRightSpec(s: string)
    ensures |TrimRight(s)| <= |s| && TrimRight(s) == s[..|TrimRight(s)|]
    ensures forall k :: |TrimRight(s)| <= k < |s| ==> IsSpace(s[k])
    ensures TrimRight(s) == [] || !IsSpace(TrimRight(s)[|TrimRight(s)| - 1])
  {
    if s != [] && IsSpace(s[|s| - 1]) {
      TrimRightSpec(s[..|s| - 1]);
    }
  }

  /** `s.strip()`. */
  function Strip(s: string): string {
    TrimRight(s[LeadingSpaces(s)..])
  }

  /** Stripping keeps the middle of `s` that starts after its leading
      whitespace and leaves only whitespace behind it; the result neither
      starts nor ends with whitespace. */
  lemma StripSpec(s: string)
    ensures var lo, r := LeadingSpaces(s), Strip(s);
      lo + |r| <= |s| && r == s[lo..lo + |r|] &&
      (forall k :: 0 <= k < lo ==> IsSpace(s[k])) &&
      (forall k :: lo + |r| <= k < |s| ==> IsSpace(s[k])) &&
      (r == [] || (!IsSpace(r[0]) && !IsSpace(r[|r| - 1])))
  {
    LeadingSpacesSpec(s);
    var lo := LeadingSpaces(s);
    var t := s[lo..];
    TrimRightSpec(t);
    var r := TrimRight(t);
    assert r == t[..|r|];
    assert r == s[lo..lo + |r|];
    forall k | lo + |r| <= k < |s| ensures IsSpace(s[k]) {
      assert s[k] == t[k - lo];
    }
    if r != [] {
      assert r[0] == s[lo];
    }
  }

  /** The number of occurrences of `c` in `s`. */
  function Occurrences(s: string, c: char): nat {
    if s == [] then 0 else (if s[0] == c then 1 else 0) + Occurrences(s[1..], c)
  }

  /** `s.replace(c, "")`. */
  function Without(s: string, c: char): string {
    if s == [] then []
    else if s[0] == c then Without(s[1..], c)
    else [s[0]] + Without(s[1..], c)
  }

  /** Deleting `c` leaves no `c`, removes exactly as many characters as there
      were occurrences of `c`, and changes nothing when `c` does not occur. */
  lemma {:induction false} WithoutSpec(s: string, c: char)
    ensures c !in Without(s, c)
    ensures |Without(s, c)| + Occurrences(s, c) == |s|
    ensures c !in s ==> Without(s, c) == s
  {
    if s != [] {
      WithoutSpec(s[1..], c);
      assert s == [s[0]] + s[1..];
    }
  }

  /** Deleting `c` keeps every other character as often as before. */
  lemma {:induction false} WithoutKeepsOthers(s: string, c: char)
    ensures multiset(Without(s, c)) == multiset(s)[c := 0]
  {
    if s != [] {
      WithoutKeepsOthers(s[1..], c);
      assert s == [s[0]] + s[1..];
    }
  }

  /** Deleting `c` keeps the order of the other characters: it works piece by
      piece. */
  lemma {:induction false} WithoutConcat(s: string, t: string, c: char)
    ensures Without(s + t, c) == Without(s, c) + Without(t, c)
  {
    if s != [] {
      WithoutConcat(s[1..], t, c);
      assert (s + t)[1..] == s[1..] + t;
    } else {
      assert s + t == t;
    }
  }

  /** `s.split(sep)`. */
  function Split(s: string, sep: char): seq<string> {
    if s == [] then [[]]
    else
      var rest := Split(s[1..], sep);
      if s[0] == sep then [[]] + rest
      else [[s[0]] + rest[0]] + rest[1..]
  }

  /** Splitting gives one piece more than there are separators, no piece
      holds a separator, and every piece is made of characters of `s`. */
  lemma {:induction false} SplitSpec(s: string, sep: char)
    ensures |Split(s, sep)| == Occurrences(s, sep) + 1
    ensures forall k :: 0 <= k < |Split(s, sep)| ==> sep !in Split(s, sep)[k]
    ensures forall k, x :: 0 <= k < |Split(s, sep)| && x in Split(s, sep)[k] ==> x in s
  {
    if s != [] {
      SplitSpec(s[1..], sep);
      var rest := Split(s[1..], sep);
      var r := Split(s, sep);
      assert forall x :: x in s[1..] ==> x in s;
      if s[0] == sep {
        assert forall k :: 1 <= k < |r| ==> r[k] == rest[k - 1];
      } else {
        assert forall k :: 1 <= k < |r| ==> r[k] == rest[k];
        assert forall x :: x in r[0] ==> x == s[0] || x in rest[0];
      }
    }
  }

  /** `sep.join(fs)`. */
  function Join(fs: seq<string>, sep: char): string {
    if |fs| == 0 then []
    else if |fs| == 1 then fs[0]
    else fs[0] + [sep] + Join(fs[1..], sep)
  }

  /** Joining the pieces of a split gives the original string back. */
  lemma {:induction false} JoinSplit(s: string, sep: char)
    ensures Join(Split(s, sep), sep) == s
  {
    if s != [] {
      JoinSplit(s[1..], sep);
      SplitSpec(s[1..], sep);
      var rest := Split(s[1..], sep);
      if s[0] == sep {
        assert Split(s, sep) == [[]] + rest;
      } else if |rest| == 1 {
        assert Split(s, sep) == [[s[0]] + rest[0]];
      } else {
        var r := Split(s, sep);
        assert r == [[s[0]] + rest[0]] + rest[1..];
        assert r[1..] == rest[1..];
        assert Join(rest, sep) == rest[0] + [sep] + Join(rest[1..], sep);
        assert s == [s[0]] + s[1..];
      }
    }
  }

  /** A separator-free string is a single piece. */
  lemma {:induction false} SplitSingle(a: string, sep: char)
    requires sep !in a
    ensures Split(a, sep) == [a]
  {
    if a != [] {
      SplitSingle(a[1..], sep);
      assert a == [a[0]] + a[1..];
    }
  }

  /** Splitting stops at the first separator. */
  lemma {:induction false} SplitFirst(a: string, sep: char, b: string)
    requires sep !in a
    ensures Split(a + [sep] + b, sep) == [a] + Split(b, sep)
  {
    if a == [] {
      assert a + [sep] + b == [sep] + b;
      assert ([sep] + b)[1..] == b;
    } else {
      SplitFirst(a[1..], sep, b);
      assert (a + [sep] + b)[1..] == a[1..] + [sep] + b;
      assert a == [a[0]] + a[1..];
    }
  }

  /** Splitting a join of separator-free pieces gives the pieces back. */
  lemma {:induction false} SplitJoin(fs: seq<string>, sep: char)
    requires |fs| >= 1
    requires forall k :: 0 <= k < |fs| ==> sep !in fs[k]
    ensures Split(Join(fs, sep), sep) == fs
  {
    if |fs| == 1 {
      SplitSingle(fs[0], sep);
    } else {
      SplitJoin(fs[1..], sep);
      SplitFirst(fs[0], sep, Join(fs[1..], sep));
      assert fs == [fs[0]] + fs[1..];
    }
  }

  predicate IsAsciiUpper(c: char) {
    'A' <= c <= 'Z'
  }

  function LowerChar(c: char): char {
    if IsAsciiUpper(c) then (c as int + 32) as char else c
  }

  /** `s.lower()`, on ASCII letters. */
  function Lower(s: string): string {
    seq(|s|, k requires 0 <= k < |s| => LowerChar(s[k]))
  }

  /** Lower-casing keeps the length, turns each capital into its small letter,
      keeps every other character, and leaves no capital. */
  lemma LowerSpec(s: string)
    ensures |Lower(s)| == |s|
    ensures forall k :: 0 <= k < |s| && !IsAsciiUpper(s[k]) ==> Lower(s)[k] == s[k]
    ensures forall k :: 0 <= k < |s| && IsAsciiUpper(s[k]) ==> Lower(s)[k] as int == s[k] as int + 32
    ensures forall k :: 0 <= k < |s| ==> !IsAsciiUpper(Lower(s)[k])
  {
  }

  /** Two strings that differ only in the case of ASCII letters: at each
      position the characters are equal, or one is a capital letter and the
      other its small letter. */
  predicate SameIgnoringCase(s: string, t: string) {
    |s| == |t| &&
    forall k :: 0 <= k < |s| ==>
      s[k] == t[k] ||
      (IsAsciiUpper(s[k]) && t[k] as int == s[k] as int + 32) ||
      (IsAsciiUpper(t[k]) && s[k] as int == t[k] as int + 32)
  }

  /** Lower-casing identifies exactly the strings that agree up to case. */
  lemma LowerEqualIff(s: string, t: string)
    ensures Lower(s) == Lower(t) <==> SameIgnoringCase(s, t)
  {
    if Lower(s) == Lower(t) {
      forall k | 0 <= k < |s|
        ensures s[k] == t[k] ||
          (IsAsciiUpper(s[k]) && t[k] as int == s[k] as int + 32) ||
          (IsAsciiUpper(t[k]) && s[k] as int == t[k] as int + 32)
      {
        assert Lower(s)[k] == Lower(t)[k];
      }
    }
    if SameIgnoringCase(s, t) {
      assert forall k :: 0 <= k < |s| ==> Lower(s)[k] == Lower(t)[k];
    }
  }

  /** Lower-casing twice is lower-casing once. */
  lemma LowerIdempotent(s: string)
    ensures Lower(Lower(s)) == Lower(s)
  {
  }

  /** The cleaned form of a line before splitting: stripped, then with every
      double quote deleted. */
  function Clean(line: string): string {
    Without(Strip(line), '"')
  }

  /** `line.strip().replace('"', "").split(",")`. */
  function Tokenise(line: string): seq<string> {
    Split(Clean(line), ',')
  }

  /** Tokenising gives fields free of commas and double quotes, one more than
      the commas of the cleaned line, and joining them with commas gives that
      cleaned line back. */
  lemma TokeniseSpec(line: string)
    ensures var fields := Tokenise(line);
      |fields| == Occurrences(Clean(line), ',') + 1 &&
      (forall k :: 0 <= k < |fields| ==> ',' !in fields[k] && '"' !in fields[k]) &&
      Join(fields, ',') == Clean(line)
  {
    SplitSpec(Clean(line), ',');
    WithoutSpec(Strip(line), '"');
    JoinSplit(Clean(line), ',');
  }
}
