/** String operations of Python's `str` and `os.path` that the dump tools rely on,
    written out over `seq<char>`: substring test (`in`), `strip()`, `"\n".join`,
    `replace(pat, "")` and POSIX `os.path.join`. */
module Text {

  /** `p` occurs in `s` starting at index `i`. */
  predicate OccursAt(s: string, p: string, i: nat)
  {
    i + |p| <= |s| && s[i..i + |p|] == p
  }

  predicate StartsWith(s: string, p: string)
  {
    |p| <= |s| && s[..|p|] == p
  }

  /** Python's `p in s` for two strings (the empty string occurs everywhere). */
  predicate Contains(s: string, p: string)
    decreases |s|
  {
    StartsWith(s, p) || (|s| > 0 && Contains(s[1..], p))
  }

  /** `Contains` agrees with the textbook definition of a substring. */
  lemma {:induction false} ContainsIff(s: string, p: string)
    ensures Contains(s, p) <==> exists i: nat :: OccursAt(s, p, i)
    decreases |s|
  {
    if StartsWith(s, p) {
      assert OccursAt(s, p, 0);
    } else if |s| == 0 {
      forall i: nat ensures !OccursAt(s, p, i) {
      }
    } else {
      ContainsIff(s[1..], p);
      if Contains(s[1..], p) {
        var i: nat :| OccursAt(s[1..], p, i);
        OccursShift(s, p, i);
      } else {
        forall i: nat | OccursAt(s, p, i) ensures false {
          if i > 0 {
            OccursShift(s, p, i - 1);
          }
        }
      }
    }
  }

  /** An occurrence in the tail is one in the whole string, one index later. */
  lemma OccursShift(s: string, p: string, i: nat)
    requires |s| > 0
    ensures OccursAt(s[1..], p, i) <==> OccursAt(s, p, i + 1)
  {
    if i + 1 + |p| <= |s| {
      assert s[1..][i..i + |p|] == s[i + 1..i + 1 + |p|];
    }
  }

  /** What occurs in `a` still occurs in `a + b`. */
  lemma ContainsExtend(a: string, b: string, p: string)
    requires Contains(a, p)
    ensures Contains(a + b, p)
  {
    ContainsIff(a, p);
    var i: nat :| OccursAt(a, p, i);
    assert (a + b)[i..i + |p|] == a[i..i + |p|];
    assert OccursAt(a + b, p, i);
    ContainsIff(a + b, p);
  }

  /** A string only contains strings that are no longer than itself. */
  lemma ContainsLength(s: string, p: string)
    requires Contains(s, p)
    ensures |p| <= |s|
  {
    ContainsIff(s, p);
  }

  /** A string without the first character of `p` does not contain `p`. */
  lemma {:induction false} MissingFirstChar(s: string, p: string)
    requires p != [] && forall i :: 0 <= i < |s| ==> s[i] != p[0]
    ensures !Contains(s, p)
    decreases |s|
  {
    if |s| > 0 {
      assert !StartsWith(s, p) by {
        if |p| <= |s| {
          assert s[..|p|][0] == s[0];
        }
      }
      MissingFirstChar(s[1..], p);
    }
  }

  /** Which characters `str.strip()` removes: Python 3 strings use the
      Unicode white-space set of `str.isspace`, Python 2 byte strings only
      the six ASCII white-space characters. */
  datatype Flavour = Unicode | Ascii

  predicate IsSpace(c: char, f: Flavour)
  {
    || c == ' ' || ('\t' <= c <= '\r')
    || (f == Unicode &&
        (|| ('\U{1c}' <= c <= '\U{1f}') || c == '\U{85}' || c == '\U{a0}'
         || c == '\U{1680}' || ('\U{2000}' <= c <= '\U{200a}')
         || c == '\U{2028}' || c == '\U{2029}' || c == '\U{202f}'
         || c == '\U{205f}' || c == '\U{3000}'))
  }

  /** `s.lstrip()`. */
  function TrimLeft(s: string, f: Flavour): string
  {
    if |s| > 0 && IsSpace(s[0], f) then TrimLeft(s[1..], f) else s
  }

  /** `s.rstrip()`. */
  function TrimRight(s: string, f: Flavour): string
  {
    if |s| > 0 && IsSpace(s[|s| - 1], f) then TrimRight(s[..|s| - 1], f) else s
  }

  /** `lstrip()` leaves the suffix of `s` that starts at its first
      non-white character, and removes only white space. */
  lemma {:induction false} TrimLeftSpec(s: string, f: Flavour)
    ensures var r := TrimLeft(s, f);
      && |r| <= |s| && r == s[|s| - |r|..]
      && (r == [] || !IsSpace(r[0], f))
      && (forall i :: 0 <= i < |s| - |r| ==> IsSpace(s[i], f))
  {
    if |s| > 0 && IsSpace(s[0], f) {
      TrimLeftSpec(s[1..], f);
      var r := TrimLeft(s[1..], f);
      forall i | 1 <= i < |s| - |r| ensures IsSpace(s[i], f) {
        assert s[i] == s[1..][i - 1];
      }
    }
  }

  /** `rstrip()` leaves the prefix of `s` that ends at its last non-white
      character, and removes only white space. */
  lemma {:induction false} TrimRightSpec(s: string, f: Flavour)
    ensures var r := TrimRight(s, f);
      && |r| <= |s| && r == s[..|r|]
      && (r == [] || !IsSpace(r[|r| - 1], f))
      && (forall i :: |r| <= i < |s| ==> IsSpace(s[i], f))
  {
    if |s| > 0 && IsSpace(s[|s| - 1], f) {
      var t := s[..|s| - 1];
      TrimRightSpec(t, f);
      var r := TrimRight(t, f);
      assert r == t[..|r|] && t[..|r|] == s[..|r|];
      forall i | |r| <= i < |s| - 1 ensures IsSpace(s[i], f) {
        assert s[i] == t[i];
      }
    }
  }

  /** `s.strip()`. */
  function Strip(s: string, f: Flavour): string
  {
    TrimRight(TrimLeft(s, f), f)
  }

  /** `r` is `s[i..i + |r|]`, bordered by non-white characters, and
      everything of `s` outside that slice is white space. */
  predicate StripsTo(s: string, r: string, i: nat, f: Flavour)
  {
    && i + |r| <= |s| && r == s[i..i + |r|]
    && (forall k :: 0 <= k < i ==> IsSpace(s[k], f))
    && (forall k :: i + |r| <= k < |s| ==> IsSpace(s[k], f))
    && (r == [] || (!IsSpace(r[0], f) && !IsSpace(r[|r| - 1], f)))
  }

  /** `strip()` keeps a contiguous slice of `s` and removes only the white
      space around it. */
  lemma StripSlice(s: string, f: Flavour)
    ensures exists i: nat :: StripsTo(s, Strip(s, f), i, f)
  {
    var l := TrimLeft(s, f);
    var r := TrimRight(l, f);
    TrimLeftSpec(s, f);
    TrimRightSpec(l, f);
    var i := |s| - |l|;
    assert l == s[i..];
    assert r == l[..|r|];
    assert r == s[i..i + |r|];
    forall k | i + |r| <= k < |s| ensures IsSpace(s[k], f) {
      assert s[k] == l[k - i];
    }
    assert r != [] ==> r[0] == l[0];
    assert r == Strip(s, f) && StripsTo(s, r, i, f);
  }

  /** `sep.join(lines)`. */
  function JoinBy(lines: seq<string>, sep: string): string
  {
    if |lines| == 0 then ""
    else if |lines| == 1 then lines[0]
    else lines[0] + sep + JoinBy(lines[1..], sep)
  }

  /** `"\n".join(lines)`. */
  function Join(lines: seq<string>): string
  {
    JoinBy(lines, "\n")
  }

  /** Joining one line gives that line. */
  lemma JoinBySingle(line: string, sep: string)
    ensures JoinBy([line], sep) == line
  {
  }

  /** Joining two non-empty runs of lines is joining each and putting one
      separator between them: the lines appear in order, each once, with
      one separator between neighbours. */
  lemma {:induction false} JoinByAppend(a: seq<string>, b: seq<string>, sep: string)
    requires a != [] && b != []
    ensures JoinBy(a + b, sep) == JoinBy(a, sep) + sep + JoinBy(b, sep)
  {
    if |a| == 1 {
      assert a + b == [a[0]] + b;
      assert (a + b)[1..] == b;
    } else {
      JoinByAppend(a[1..], b, sep);
      assert (a + b)[1..] == a[1..] + b;
    }
  }

  /** The joined text is as long as the lines plus one separator per pair
      of neighbours. */
  lemma {:induction false} JoinLength(lines: seq<string>)
    ensures |Join(lines)| == TotalLength(lines) + (if |lines| == 0 then 0 else |lines| - 1)
  {
    if |lines| > 1 {
      JoinLength(lines[1..]);
    }
  }

  function TotalLength(lines: seq<string>): nat
  {
    if |lines| == 0 then 0 else |lines[0]| + TotalLength(lines[1..])
  }

  /** `s.replace(pat, "")`: every non-overlapping occurrence of `pat`, found
      left to right, is removed. */
  function RemoveAll(s: string, pat: string): (r: string)
    requires pat != []
    ensures |r| <= |s|
    decreases |s|
  {
    if StartsWith(s, pat) then RemoveAll(s[|pat|..], pat)
    else if s == [] then []
    else [s[0]] + RemoveAll(s[1..], pat)
  }

  /** The number of occurrences `RemoveAll` removes. */
  function Occurrences(s: string, pat: string): nat
    requires pat != []
    decreases |s|
  {
    if StartsWith(s, pat) then 1 + Occurrences(s[|pat|..], pat)
    else if s == [] then 0
    else Occurrences(s[1..], pat)
  }

  /** The length lost is exactly one pattern length per removed
      occurrence. */
  lemma {:induction false} RemoveAllLength(s: string, pat: string)
    requires pat != []
    ensures |RemoveAll(s, pat)| + |pat| * Occurrences(s, pat) == |s|
    decreases |s|
  {
    if StartsWith(s, pat) {
      RemoveAllLength(s[|pat|..], pat);
      MulSucc(|pat|, Occurrences(s[|pat|..], pat));
    } else if s != [] {
      RemoveAllLength(s[1..], pat);
    }
  }

  lemma MulSucc(a: nat, o: nat)
    ensures a * (1 + o) == a + a * o
  {
  }

  /** A string without the pattern is returned unchanged. */
  lemma {:induction false} RemoveAllAbsent(s: string, pat: string)
    requires pat != [] && !Contains(s, pat)
    ensures RemoveAll(s, pat) == s && Occurrences(s, pat) == 0
    decreases |s|
  {
    if s != [] {
      RemoveAllAbsent(s[1..], pat);
      assert [s[0]] + s[1..] == s;
    }
  }

  /** A leading occurrence is removed and the rest is processed as if it
      stood alone. */
  lemma RemoveAllPrefix(pat: string, s: string)
    requires pat != []
    ensures RemoveAll(pat + s, pat) == RemoveAll(s, pat)
  {
    assert StartsWith(pat + s, pat);
    assert (pat + s)[|pat|..] == s;
  }

  /** `s.split(pat)`: the pieces of `s` between the occurrences of `pat`
      that a left-to-right scan finds. */
  function Split(s: string, pat: string): (r: seq<string>)
    requires pat != []
    ensures |r| >= 1
    decreases |s|
  {
    if StartsWith(s, pat) then [""] + Split(s[|pat|..], pat)
    else if s == [] then [""]
    else
      var rest := Split(s[1..], pat);
      [[s[0]] + rest[0]] + rest[1..]
  }

  /** A piece in front of a non-empty run of pieces is separated from their
      join by one separator. */
  lemma JoinByCons(x: string, r: seq<string>, sep: string)
    requires r != []
    ensures JoinBy([x] + r, sep) == x + sep + JoinBy(r, sep)
  {
    assert ([x] + r)[1..] == r;
  }

  /** Putting a piece in front of the first of a non-empty run of pieces
      puts it in front of their join. */
  lemma JoinByPrepend(c: string, r: seq<string>, sep: string)
    requires r != []
    ensures JoinBy([c + r[0]] + r[1..], sep) == c + JoinBy(r, sep)
  {
    var parts := [c + r[0]] + r[1..];
    if |r| > 1 {
      assert parts[1..] == r[1..];
      assert JoinBy(parts, sep) == c + r[0] + sep + JoinBy(r[1..], sep);
    }
  }

  /** `s.replace(pat, "")` is `"".join(s.split(pat))`: `s` is its pieces with
      `pat` between neighbours, one piece more than the occurrences removed,
      no piece holds `pat`, and what remains is the pieces in order. */
  lemma RemoveAllSplit(s: string, pat: string)
    requires pat != []
    ensures var parts := Split(s, pat);
      && |parts| == Occurrences(s, pat) + 1
      && s == JoinBy(parts, pat)
      && RemoveAll(s, pat) == JoinBy(parts, "")
      && (forall i :: 0 <= i < |parts| ==> !Contains(parts[i], pat))
  {
    SplitCount(s, pat);
    SplitJoin(s, pat);
    SplitRemove(s, pat);
    SplitPieces(s, pat);
  }

  lemma {:induction false} SplitCount(s: string, pat: string)
    requires pat != []
    ensures |Split(s, pat)| == Occurrences(s, pat) + 1
    decreases |s|
  {
    if StartsWith(s, pat) {
      SplitCount(s[|pat|..], pat);
    } else if s != [] {
      SplitCount(s[1..], pat);
    }
  }

  /** The pieces with `pat` between neighbours give back `s`. */
  lemma {:induction false} SplitJoin(s: string, pat: string)
    requires pat != []
    ensures s == JoinBy(Split(s, pat), pat)
    decreases |s|
  {
    if StartsWith(s, pat) {
      var rest := s[|pat|..];
      SplitJoin(rest, pat);
      JoinByCons("", Split(rest, pat), pat);
      assert s == s[..|pat|] + rest;
    } else if s != [] {
      SplitJoin(s[1..], pat);
      JoinByPrepend([s[0]], Split(s[1..], pat), pat);
      assert s == [s[0]] + s[1..];
    }
  }

  /** Removing the pattern leaves the pieces, in order. */
  lemma {:induction false} SplitRemove(s: string, pat: string)
    requires pat != []
    ensures RemoveAll(s, pat) == JoinBy(Split(s, pat), "")
    decreases |s|
  {
    if StartsWith(s, pat) {
      var rest := s[|pat|..];
      SplitRemove(rest, pat);
      var r := Split(rest, pat);
      var parts := [""] + r;
      assert parts[1..] == r;
      assert JoinBy(parts, "") == "" + "" + JoinBy(r, "");
    } else if s != [] {
      SplitRemove(s[1..], pat);
      JoinByPrepend([s[0]], Split(s[1..], pat), "");
    }
  }

  /** No piece holds the pattern. */
  lemma {:induction false} SplitPieces(s: string, pat: string)
    requires pat != []
    ensures forall i :: 0 <= i < |Split(s, pat)| ==> !Contains(Split(s, pat)[i], pat)
    decreases |s|
  {
    if StartsWith(s, pat) {
      SplitPieces(s[|pat|..], pat);
      NoPieceCons("", Split(s[|pat|..], pat), pat);
    } else if s != [] {
      var r := Split(s[1..], pat);
      SplitPieces(s[1..], pat);
      SplitJoin(s[1..], pat);
      NoPatternInFirstPiece(s, pat, r);
      assert forall i :: 0 <= i < |r[1..]| ==> r[1..][i] == r[i + 1];
      NoPieceCons([s[0]] + r[0], r[1..], pat);
    }
  }

  /** A piece without the pattern in front of pieces without it. */
  lemma NoPieceCons(x: string, r: seq<string>, pat: string)
    requires !Contains(x, pat)
    requires forall i :: 0 <= i < |r| ==> !Contains(r[i], pat)
    ensures forall i :: 0 <= i < |[x] + r| ==> !Contains(([x] + r)[i], pat)
  {
    forall i | 0 <= i < |[x] + r| ensures !Contains(([x] + r)[i], pat) {
      if i > 0 { assert ([x] + r)[i] == r[i - 1]; }
    }
  }

  /** The first piece of a string that does not start with the pattern,
      whose tail splits into `r`, holds no occurrence. */
  lemma NoPatternInFirstPiece(s: string, pat: string, r: seq<string>)
    requires pat != [] && s != [] && !StartsWith(s, pat)
    requires r != [] && s[1..] == JoinBy(r, pat) && !Contains(r[0], pat)
    ensures !Contains([s[0]] + r[0], pat)
  {
    var p := [s[0]] + r[0];
    assert p[1..] == r[0];
    JoinByPrefix(r, pat);
    assert s[..|p|] == p;
    PrefixStartsWith(s, p, pat);
  }

  /** What a prefix of `s` starts with, `s` starts with. */
  lemma PrefixStartsWith(s: string, p: string, pat: string)
    requires |p| <= |s| && s[..|p|] == p
    ensures StartsWith(p, pat) ==> StartsWith(s, pat)
  {
    if StartsWith(p, pat) {
      assert s[..|pat|] == p[..|pat|];
    }
  }

  /** A join starts with its first piece. */
  lemma JoinByPrefix(r: seq<string>, sep: string)
    requires r != []
    ensures StartsWith(JoinBy(r, sep), r[0])
  {
    if |r| > 1 {
      assert JoinBy(r, sep) == r[0] + (sep + JoinBy(r[1..], sep));
    }
  }

  /** One pass only: removing `File:` from `FiFile:le:` leaves `File:`. */
  lemma RemoveAllSinglePass()
    ensures RemoveAll("FiFile:le:", "File:") == "File:"
  {
    var s, pat := "FiFile:le:", "File:";
    assert s == "Fi" + pat + "le:";
    assert !StartsWith(s, pat) by { assert s[2] == 'F' && pat[2] == 'l'; }
    assert !StartsWith(s[1..], pat) by { assert s[1..][0] == 'i' && pat[0] == 'F'; }
    assert s[2..] == pat + "le:";
    assert !Contains("le:", pat) by {
      if Contains("le:", pat) {
        ContainsLength("le:", pat);
      }
    }
    RemoveAllAbsent("le:", pat);
  }

  /** POSIX `os.path.join(a, b)`: an absolute `b` replaces `a`; otherwise a
      `/` is inserted unless `a` is empty or already ends with one. */
  function PathJoin(a: string, b: string): string
  {
    if |b| > 0 && b[0] == '/' then b
    else if a == [] || a[|a| - 1] == '/' then a + b
    else a + "/" + b
  }
}
