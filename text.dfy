/**
 * The few pieces of Rust's `str` API that the result readers of codes/Q3/src/main.rs
 * rely on, on strings as sequences of Unicode scalar values: `lines`, `trim`,
 * `contains`, `starts_with`, `split('=').nth(1)` and `split_whitespace().next()`.
 */
module Text {
  import opened Wrappers

  /** The characters with the Unicode White_Space property. */
  const Whitespace: set<char> :=
    {'\t', '\n', '\U{B}', '\U{C}', '\r', ' ', '\U{85}', '\U{A0}', '\U{1680}',
     '\U{2000}', '\U{2001}', '\U{2002}', '\U{2003}', '\U{2004}', '\U{2005}', '\U{2006}',
     '\U{2007}', '\U{2008}', '\U{2009}', '\U{200A}',
     '\U{2028}', '\U{2029}', '\U{202F}', '\U{205F}', '\U{3000}'}

  /** Rust's `char::is_whitespace`. */
  predicate IsWhitespace(c: char)
  {
    c in Whitespace
  }

  predicate AllWhitespace(s: string)
  {
    forall i :: 0 <= i < |s| ==> IsWhitespace(s[i])
  }

  /** `trim_start`: drops the leading whitespace. */
  function TrimStart(s: string): string
  {
    if s != [] && IsWhitespace(s[0]) then TrimStart(s[1..]) else s
  }

  /** `trim_end`: drops the trailing whitespace. */
  function TrimEnd(s: string): string
  {
    if s != [] && IsWhitespace(s[|s| - 1]) then TrimEnd(s[..|s| - 1]) else s
  }

  /** `trim_start` drops the leading whitespace, and only that: what it keeps is a
      suffix that starts with a non-whitespace character, if any. */
  lemma TrimStartShape(s: string)
    ensures |TrimStart(s)| <= |s| && TrimStart(s) == s[|s| - |TrimStart(s)|..]
    ensures AllWhitespace(s[..|s| - |TrimStart(s)|])
    ensures TrimStart(s) == [] || !IsWhitespace(TrimStart(s)[0])
  {
    TrimStartSuffix(s);
    TrimStartDropsWhitespace(s);
    TrimStartAtWord(s);
  }

  lemma {:induction false} TrimStartSuffix(s: string)
    ensures |TrimStart(s)| <= |s| && TrimStart(s) == s[|s| - |TrimStart(s)|..]
  {
    if s != [] && IsWhitespace(s[0]) {
      TrimStartSuffix(s[1..]);
      var r := TrimStart(s[1..]);
      DropAfterFirst(s, |s| - 1 - |r|);
      assert TrimStart(s) == r;
    } else {
      assert TrimStart(s) == s == s[0..];
    }
  }

  /** Dropping the first element and then `j` more drops `j + 1`. */
  lemma DropAfterFirst(s: string, j: nat)
    requires j < |s|
    ensures s[1..][j..] == s[j + 1..]
  {
  }

  lemma {:induction false} TrimStartDropsWhitespace(s: string)
    ensures |TrimStart(s)| <= |s| && AllWhitespace(s[..|s| - |TrimStart(s)|])
  {
    if s != [] && IsWhitespace(s[0]) {
      TrimStartDropsWhitespace(s[1..]);
      var k := |s| - |TrimStart(s)|;
      assert s[..k] == [s[0]] + s[1..][..k - 1];
      WhitespaceSplit([s[0]], s[1..][..k - 1]);
    } else {
      assert s[..0] == [];
    }
  }

  lemma {:induction false} TrimStartAtWord(s: string)
    ensures TrimStart(s) == [] || !IsWhitespace(TrimStart(s)[0])
  {
    if s != [] && IsWhitespace(s[0]) {
      TrimStartAtWord(s[1..]);
    }
  }

  /** `trim_end` drops the trailing whitespace, and only that: what it keeps is a
      prefix that ends with a non-whitespace character, if any. */
  lemma {:induction false} TrimEndShape(s: string)
    ensures |TrimEnd(s)| <= |s| && TrimEnd(s) == s[..|TrimEnd(s)|]
    ensures AllWhitespace(s[|TrimEnd(s)|..])
    ensures TrimEnd(s) == [] || !IsWhitespace(TrimEnd(s)[|TrimEnd(s)| - 1])
  {
    if s != [] && IsWhitespace(s[|s| - 1]) {
      var r := TrimEnd(s[..|s| - 1]);
      TrimEndShape(s[..|s| - 1]);
      assert s[..|s| - 1][..|r|] == s[..|r|];
      assert s[|r|..] == s[..|s| - 1][|r|..] + [s[|s| - 1]];
      WhitespaceSplit(s[..|s| - 1][|r|..], [s[|s| - 1]]);
    } else {
      assert s[|s|..] == [];
    }
  }

  /** `trim`: both ends. */
  function Trim(s: string): string
  {
    TrimEnd(TrimStart(s))
  }

  /** Trim removes whitespace only at the ends, leaves no whitespace at either end and
      gives the empty string exactly for an all-whitespace input. */
  lemma TrimShape(s: string)
    ensures Trim(s) == [] || (!IsWhitespace(Trim(s)[0]) && !IsWhitespace(Trim(s)[|Trim(s)| - 1]))
    ensures Trim(s) == [] <==> AllWhitespace(s)
  {
    TrimEndsAtWords(s);
    TrimEmptyIffBlank(s);
  }

  /** A non-empty trimmed string starts and ends with a non-whitespace character. */
  lemma TrimEndsAtWords(s: string)
    ensures Trim(s) == [] || (!IsWhitespace(Trim(s)[0]) && !IsWhitespace(Trim(s)[|Trim(s)| - 1]))
  {
    var t := TrimStart(s);
    var r := TrimEnd(t);
    TrimStartAtWord(s);
    TrimEndShape(t);
    assert Trim(s) == r;
    if r != [] {
      assert r[0] == t[0] && !IsWhitespace(r[0]);
    }
  }

  /** Trimming leaves nothing exactly when the string is all whitespace. */
  lemma TrimEmptyIffBlank(s: string)
    ensures Trim(s) == [] <==> AllWhitespace(s)
  {
    var t := TrimStart(s);
    var r := TrimEnd(t);
    TrimStartSuffix(s);
    TrimStartDropsWhitespace(s);
    TrimEndShape(t);
    var k := |s| - |t|;
    SplitAt(s, k);
    WhitespaceSplit(s[..k], t);
    SplitAt(t, |r|);
    WhitespaceSplit(r, t[|r|..]);
    assert Trim(s) == r;
  }

  /** A string is its prefix of length `k` followed by the rest. */
  lemma SplitAt(s: string, k: nat)
    requires k <= |s|
    ensures s == s[..k] + s[k..]
  {
  }

  /** A concatenation is all whitespace exactly when both parts are. */
  lemma WhitespaceSplit(u: string, v: string)
    ensures AllWhitespace(u + v) <==> AllWhitespace(u) && AllWhitespace(v)
  {
    if AllWhitespace(u + v) {
      forall i | 0 <= i < |u| ensures IsWhitespace(u[i]) {
        assert (u + v)[i] == u[i];
      }
      forall i | 0 <= i < |v| ensures IsWhitespace(v[i]) {
        assert (u + v)[|u| + i] == v[i];
      }
    }
    if AllWhitespace(u) && AllWhitespace(v) {
      forall i | 0 <= i < |u + v| ensures IsWhitespace((u + v)[i]) {
        if i < |u| {
          assert (u + v)[i] == u[i];
        } else {
          assert (u + v)[i] == v[i - |u|];
        }
      }
    }
  }

  /** Trimming twice is trimming once. */
  lemma TrimIdempotent(s: string)
    ensures Trim(Trim(s)) == Trim(s)
  {
    TrimShape(s);
    var r := Trim(s);
    assert TrimStart(r) == r;
    assert TrimEnd(r) == r;
  }

  /** `contains`: `p` occurs somewhere in `s`. */
  predicate Contains(s: string, p: string)
  {
    p <= s || (s != [] && Contains(s[1..], p))
  }

  /** Contains means an occurrence at some position. */
  lemma {:induction false} ContainsIffOccurs(s: string, p: string)
    ensures Contains(s, p) <==> exists i :: 0 <= i <= |s| && p <= s[i..]
  {
    if s == [] {
      if Contains(s, p) {
        assert p <= s[0..];
      }
    } else {
      ContainsIffOccurs(s[1..], p);
      if exists i :: 0 <= i <= |s| && p <= s[i..] {
        var i :| 0 <= i <= |s| && p <= s[i..];
        if i > 0 {
          assert s[1..][i - 1..] == s[i..];
        }
      }
      if p <= s {
        assert s[0..] == s;
      } else if Contains(s[1..], p) {
        var i :| 0 <= i <= |s| - 1 && p <= s[1..][i..];
        assert s[1..][i..] == s[i + 1..];
      }
    }
  }

  /** The position of the first `c` in `s`, or |s| when there is none. */
  function IndexOf(s: string, c: char): (j: nat)
    ensures j <= |s|
    ensures j < |s| ==> s[j] == c
    ensures c !in s[..j]
  {
    if s == [] then 0
    else if s[0] == c then 0
    else
      assert s[..1 + IndexOf(s[1..], c)] == [s[0]] + s[1..][..IndexOf(s[1..], c)];
      1 + IndexOf(s[1..], c)
  }

  /** `split(c)`: the pieces between the occurrences of `c` (always at least one). */
  function Split(s: string, c: char): (pieces: seq<string>)
    ensures |pieces| >= 1
    ensures forall k :: 0 <= k < |pieces| ==> c !in pieces[k]
    decreases |s|
  {
    var j := IndexOf(s, c);
    if j == |s| then [s] else [s[..j]] + Split(s[j + 1..], c)
  }

  /** Joins pieces with `c` between them. */
  function Join(pieces: seq<string>, c: char): string
    requires |pieces| >= 1
  {
    if |pieces| == 1 then pieces[0] else pieces[0] + [c] + Join(pieces[1..], c)
  }

  /** Splitting and joining again gives the original string back. */
  lemma {:induction false} SplitJoin(s: string, c: char)
    ensures Join(Split(s, c), c) == s
    decreases |s|
  {
    var j := IndexOf(s, c);
    if j < |s| {
      var rest := Split(s[j + 1..], c);
      assert Split(s, c) == [s[..j]] + rest;
      assert Join([s[..j]] + rest, c) == s[..j] + [c] + Join(rest, c);
      SplitJoin(s[j + 1..], c);
      assert s == s[..j] + [c] + s[j + 1..];
    }
  }

  /** `split('=').nth(1)`: the text between the first and the second `=`, or up to the end. */
  function SecondField(s: string): (r: Option<string>)
    ensures r.Some? <==> '=' in s
    ensures r.Some? ==> '=' !in r.value
  {
    var pieces := Split(s, '=');
    if |pieces| > 1 then Some(pieces[1]) else None
  }

  /** `split_whitespace().next()`: the first maximal run of non-whitespace characters. */
  function FirstToken(s: string): (t: Option<string>)
    ensures t.None? <==> AllWhitespace(s)
    ensures t.Some? ==> t.value != [] && forall i :: 0 <= i < |t.value| ==> !IsWhitespace(t.value[i])
  {
    var rest := TrimStart(s);
    TrimStartShape(s);
    if rest == [] then
      assert s == s[..|s|];
      None
    else
      assert !AllWhitespace(s) by {
        assert s[|s| - |rest|] == rest[0];
      }
      Some(rest[..WordEnd(rest)])
  }

  /** The length of the leading run of non-whitespace characters. */
  function WordEnd(s: string): (j: nat)
    ensures j <= |s|
    ensures forall i :: 0 <= i < j ==> !IsWhitespace(s[i])
    ensures j < |s| ==> IsWhitespace(s[j])
    ensures s != [] && !IsWhitespace(s[0]) ==> j > 0
  {
    if s == [] || IsWhitespace(s[0]) then 0 else 1 + WordEnd(s[1..])
  }

  /** Drops one carriage return before a line feed. */
  function StripCR(l: string): string
  {
    if l != [] && l[|l| - 1] == '\r' then l[..|l| - 1] else l
  }

  /** `lines`: splits at `\n`, drops a `\r` just before it, and yields no empty last line
      after a final line feed; an empty string has no lines. */
  function Lines(s: string): (ls: seq<string>)
    ensures forall k :: 0 <= k < |ls| ==> '\n' !in ls[k]
    decreases |s|
  {
    if s == [] then []
    else
      var j := IndexOf(s, '\n');
      if j == |s| then [s] else [StripCR(s[..j])] + Lines(s[j + 1..])
  }

  /** Writes each line followed by a line feed. */
  function Unlines(ls: seq<string>): string
  {
    if ls == [] then [] else ls[0] + "\n" + Unlines(ls[1..])
  }

  /** Reading back lines written with line feeds gives the same lines, as long as none of
      them contains a line feed or ends in a carriage return. */
  lemma {:induction false} LinesUnlines(ls: seq<string>)
    requires forall k :: 0 <= k < |ls| ==> '\n' !in ls[k] && (ls[k] == [] || ls[k][|ls[k]| - 1] != '\r')
    ensures Lines(Unlines(ls)) == ls
  {
    if ls != [] {
      var s := Unlines(ls);
      var l := ls[0];
      assert s == l + ("\n" + Unlines(ls[1..]));
      IndexOfPrefix(l, '\n', "\n" + Unlines(ls[1..]));
      assert s[..|l|] == l;
      assert s[|l| + 1..] == Unlines(ls[1..]);
      LinesUnlines(ls[1..]);
    }
  }

  /** The first `c` of `a + b` when `a` has none and `b` starts with one. */
  lemma IndexOfPrefix(a: string, c: char, b: string)
    requires c !in a && b != [] && b[0] == c
    ensures IndexOf(a + b, c) == |a|
  {
    if a != [] {
      assert (a + b)[1..] == a[1..] + b;
      IndexOfPrefix(a[1..], c, b);
    }
  }
}
