/** The Python string built-ins the training utilities rely on:
    `str.strip()`, `str.split(sep)`, `str.split()`, `int(str)` and the
    POSIX form of `os.path.join(a, b)`. Strings are sequences of code points. */
module PyText {
  import opened Wrappers

  /** `ch.isspace()`: the characters Python's `str.strip()` and `str.split()`
      treat as whitespace. */
  predicate IsSpace(ch: char) {
    || ch == ' '
    || ('\t' <= ch <= '\r')
    || ('\U{1c}' <= ch <= '\U{1f}')
    || ch == '\U{85}' || ch == '\U{a0}' || ch == '\U{1680}'
    || ('\U{2000}' <= ch <= '\U{200a}')
    || ch == '\U{2028}' || ch == '\U{2029}' || ch == '\U{202f}'
    || ch == '\U{205f}' || ch == '\U{3000}'
  }

  /** No character of `s` is whitespace. */
  predicate NoSpace(s: string) {
    forall k :: 0 <= k < |s| ==> !IsSpace(s[k])
  }

  // ---------------------------------------------------------------- strip
  // The functions below carry only the facts their callers need to be well
  // defined; what they compute is stated by the lemma that follows each.

  /** `s.lstrip()`. */
  function StripLeft(s: string): (r: string)
    ensures |r| <= |s|
  {
    if s != [] && IsSpace(s[0]) then StripLeft(s[1..]) else s
  }

  /** `s.lstrip()` drops the leading whitespace and nothing else. */
  lemma {:induction false} StripLeftSpec(s: string)
    ensures var r := StripLeft(s);
      && r == s[|s| - |r|..]
      && (forall k :: 0 <= k < |s| - |r| ==> IsSpace(s[k]))
      && (r == [] || !IsSpace(r[0]))
  {
    if s != [] && IsSpace(s[0]) {
      StripLeftSpec(s[1..]);
      var r := StripLeft(s);
      assert s[1..][|s| - 1 - |r|..] == s[|s| - |r|..];
      forall k | 0 <= k < |s| - |r| ensures IsSpace(s[k]) {
        if k > 0 {
          assert s[k] == s[1..][k - 1];
        }
      }
    }
  }

  /** `s.rstrip()`. */
  function StripRight(s: string): (r: string)
    ensures |r| <= |s|
  {
    if s != [] && IsSpace(s[|s| - 1]) then StripRight(s[..|s| - 1]) else s
  }

  /** `s.rstrip()` drops the trailing whitespace and nothing else. */
  lemma {:induction false} StripRightSpec(s: string)
    ensures var r := StripRight(s);
      && r == s[..|r|]
      && (forall k :: |r| <= k < |s| ==> IsSpace(s[k]))
      && (r == [] || !IsSpace(r[|r| - 1]))
  {
    if s != [] && IsSpace(s[|s| - 1]) {
      var t := s[..|s| - 1];
      StripRightSpec(t);
      var r := StripRight(s);
      assert t[..|r|] == s[..|r|];
      forall k | |r| <= k < |s| ensures IsSpace(s[k]) {
        if k < |s| - 1 {
          assert s[k] == t[k];
        }
      }
    }
  }

  /** `s.strip()`. */
  function Strip(s: string): (r: string)
    ensures |r| <= |s|
    ensures r == [] || (!IsSpace(r[0]) && !IsSpace(r[|r| - 1]))
  {
    var l := StripLeft(s);
    StripLeftSpec(s);
    StripRightSpec(l);
    var r := StripRight(l);
    assert r != [] ==> r[0] == l[0];
    r
  }

  /** `s.strip()` is the infix of `s` left once whitespace is removed at
      both ends; it neither starts nor ends with whitespace. */
  lemma StripSpec(s: string)
    ensures var r := Strip(s); var i := |s| - |StripLeft(s)|;
      && (r == [] || (!IsSpace(r[0]) && !IsSpace(r[|r| - 1])))
      && i + |r| <= |s| && r == s[i..i + |r|]
      && (forall k :: 0 <= k < i ==> IsSpace(s[k]))
      && (forall k :: i + |r| <= k < |s| ==> IsSpace(s[k]))
  {
    var l := StripLeft(s);
    StripLeftSpec(s);
    StripRightSpec(l);
    var r := StripRight(l);
    var i := |s| - |l|;
    SliceOfSuffix(s, i, |r|);
    if r != [] {
      assert r[0] == l[0];
    }
    forall k | i + |r| <= k < |s| ensures IsSpace(s[k]) {
      assert s[k] == l[k - i];
    }
  }

  /** A prefix of a suffix is an infix. */
  lemma SliceOfSuffix<T>(s: seq<T>, i: nat, m: nat)
    requires i + m <= |s|
    ensures s[i..][..m] == s[i..i + m]
    ensures forall k :: i + m <= k < |s| ==> s[k] == s[i..][k - i]
  {
  }

  /** Stripping a string that neither starts nor ends with whitespace
      leaves it unchanged. */
  lemma StripUnchanged(s: string)
    requires s == [] || (!IsSpace(s[0]) && !IsSpace(s[|s| - 1]))
    ensures Strip(s) == s
  {
  }

  /** `lstrip()` of `a + b` stops inside `a` when `b` starts with a
      non-whitespace character. */
  lemma {:induction false} StripLeftAppend(a: string, b: string)
    requires b != [] && !IsSpace(b[0])
    ensures StripLeft(a + b) == StripLeft(a) + b
  {
    if a != [] {
      assert (a + b)[0] == a[0];
      assert (a + b)[1..] == a[1..] + b;
      StripLeftAppend(a[1..], b);
    } else {
      assert a + b == b;
    }
  }

  /** `rstrip()` of `a + b` stops inside `b` when `a` ends with a
      non-whitespace character. */
  lemma {:induction false} StripRightPrepend(a: string, b: string)
    requires a != [] && !IsSpace(a[|a| - 1])
    ensures StripRight(a + b) == a + StripRight(b)
    decreases |b|
  {
    if b != [] {
      var ab := a + b;
      assert ab[|ab| - 1] == b[|b| - 1];
      assert ab[..|ab| - 1] == a + b[..|b| - 1];
      StripRightPrepend(a, b[..|b| - 1]);
    } else {
      assert a + b == a;
    }
  }

  /** `lstrip()` of `t + [c]` for a whitespace `c`: `c` survives unless
      all of `t` is whitespace. */
  lemma {:induction false} StripLeftSnoc(t: string, c: char)
    requires IsSpace(c)
    ensures StripLeft(t + [c]) == if StripLeft(t) == [] then [] else StripLeft(t) + [c]
  {
    if t == [] {
      assert t + [c] == [c] && [c][1..] == [];
    } else {
      assert (t + [c])[0] == t[0] && (t + [c])[1..] == t[1..] + [c];
      if IsSpace(t[0]) {
        StripLeftSnoc(t[1..], c);
      }
    }
  }

  /** An `rstrip()` before `strip()` changes nothing. */
  lemma {:induction false} StripOfStripRight(s: string)
    ensures Strip(StripRight(s)) == Strip(s)
    decreases |s|
  {
    if s != [] && IsSpace(s[|s| - 1]) {
      var t := s[..|s| - 1];
      StripOfStripRight(t);
      assert s == t + [s[|s| - 1]];
      StripLeftSnoc(t, s[|s| - 1]);
    }
  }

  // ---------------------------------------------------------- split(sep)

  /** `s.split(sep)`: there is always at least one piece. */
  function Split(s: string, sep: char): (r: seq<string>)
    ensures |r| >= 1
  {
    if s == [] then [""]
    else
      var rest := Split(s[1..], sep);
      if s[0] == sep then [""] + rest
      else [[s[0]] + rest[0]] + rest[1..]
  }

  /** `s.split(sep)` cuts `s` at every `sep`: no piece contains `sep`, and
      joining the pieces with `sep` gives `s` back. */
  lemma SplitSpec(s: string, sep: char)
    ensures var r := Split(s, sep);
      && (forall i :: 0 <= i < |r| ==> sep !in r[i])
      && JoinWith(r, sep) == s
  {
    SplitPieces(s, sep);
    SplitRejoins(s, sep);
  }

  /** No piece of `s.split(sep)` contains `sep`. */
  lemma {:induction false} SplitPieces(s: string, sep: char)
    ensures forall i :: 0 <= i < |Split(s, sep)| ==> sep !in Split(s, sep)[i]
  {
    if s != [] {
      var rest := Split(s[1..], sep);
      SplitPieces(s[1..], sep);
      if s[0] == sep {
        SeqConsPieces([], rest, sep);
      } else {
        assert sep !in [s[0]] + rest[0];
        SeqConsPieces([s[0]] + rest[0], rest[1..], sep);
      }
    }
  }

  /** Putting a piece without `sep` in front of pieces without `sep`. */
  lemma SeqConsPieces(w: string, rest: seq<string>, sep: char)
    requires sep !in w && forall i :: 0 <= i < |rest| ==> sep !in rest[i]
    ensures var r := [w] + rest; forall i :: 0 <= i < |r| ==> sep !in r[i]
  {
    var r := [w] + rest;
    forall i | 0 <= i < |r| ensures sep !in r[i] {
      if i > 0 {
        assert r[i] == rest[i - 1];
      }
    }
  }

  /** Joining the pieces of `s.split(sep)` with `sep` gives `s`. */
  lemma {:induction false} SplitRejoins(s: string, sep: char)
    ensures JoinWith(Split(s, sep), sep) == s
  {
    if s != [] {
      var rest := Split(s[1..], sep);
      SplitRejoins(s[1..], sep);
      var r := Split(s, sep);
      if s[0] == sep {
        assert r == [""] + rest;
        JoinWithEmptyCons(rest, sep);
      } else {
        assert r == [[s[0]] + rest[0]] + rest[1..];
        JoinWithCons(s[0], rest, sep);
      }
      assert [s[0]] + s[1..] == s;
    }
  }

  /** An empty first piece puts a separator first. */
  lemma JoinWithEmptyCons(parts: seq<string>, sep: char)
    requires |parts| >= 1
    ensures JoinWith([""] + parts, sep) == [sep] + JoinWith(parts, sep)
  {
    assert ([""] + parts)[1..] == parts;
  }

  /** Adding a character before the first piece adds it before the join. */
  lemma JoinWithCons(c: char, parts: seq<string>, sep: char)
    requires |parts| >= 1
    ensures JoinWith([[c] + parts[0]] + parts[1..], sep) == [c] + JoinWith(parts, sep)
  {
    var x := [[c] + parts[0]] + parts[1..];
    if |parts| > 1 {
      assert x[1..] == parts[1..];
    }
  }

  /** `sep.join(parts)`. */
  function JoinWith(parts: seq<string>, sep: char): string
    requires |parts| >= 1
  {
    if |parts| == 1 then parts[0] else parts[0] + [sep] + JoinWith(parts[1..], sep)
  }

  /** Splitting undoes joining when no piece contains the separator. */
  lemma {:induction false} SplitJoin(parts: seq<string>, sep: char)
    requires |parts| >= 1
    requires forall i :: 0 <= i < |parts| ==> sep !in parts[i]
    ensures Split(JoinWith(parts, sep), sep) == parts
  {
    if |parts| == 1 {
      SplitNoSep(parts[0], sep);
    } else {
      SplitJoin(parts[1..], sep);
      SplitAppend(parts[0], JoinWith(parts[1..], sep), sep);
    }
  }

  /** A string without the separator is a single piece. */
  lemma {:induction false} SplitNoSep(s: string, sep: char)
    requires sep !in s
    ensures Split(s, sep) == [s]
  {
    if s != [] {
      SplitNoSep(s[1..], sep);
      assert [s[0]] + s[1..] == s;
    }
  }

  /** Splitting `p + [sep] + t` where `p` has no separator yields `p` first. */
  lemma {:induction false} SplitAppend(p: string, t: string, sep: char)
    requires sep !in p
    ensures Split(p + [sep] + t, sep) == [p] + Split(t, sep)
  {
    if p == [] {
      assert p + [sep] + t == [sep] + t;
      assert ([sep] + t)[1..] == t;
    } else {
      assert (p + [sep] + t)[1..] == p[1..] + [sep] + t;
      SplitAppend(p[1..], t, sep);
      assert [p[0]] + p[1..] == p;
    }
  }

  // -------------------------------------------------------------- split()

  /** Length of the run of non-whitespace characters that starts `s`. */
  function WordEnd(s: string): (k: nat)
    ensures k <= |s|
    ensures k < |s| ==> IsSpace(s[k])
  {
    if s == [] || IsSpace(s[0]) then 0 else 1 + WordEnd(s[1..])
  }

  /** The run that starts `s` holds no whitespace. */
  lemma {:induction false} WordEndSpec(s: string)
    ensures NoSpace(s[..WordEnd(s)])
  {
    if s != [] && !IsSpace(s[0]) {
      WordEndSpec(s[1..]);
      var k := WordEnd(s);
      assert s[..k] == [s[0]] + s[1..][..k - 1];
    }
  }

  /** `s.split()`: the maximal runs of non-whitespace characters, in order. */
  function Words(s: string): (r: seq<string>)
    ensures |r| <= |s|
    decreases |s|
  {
    if s == [] then []
    else if IsSpace(s[0]) then Words(s[1..])
    else
      var k := WordEnd(s);
      [s[..k]] + Words(s[k..])
  }

  /** Every word `s.split()` returns is non-empty and holds no whitespace. */
  lemma {:induction false} WordsSpec(s: string)
    ensures var r := Words(s); forall i :: 0 <= i < |r| ==> r[i] != [] && NoSpace(r[i])
    decreases |s|
  {
    if s != [] {
      if IsSpace(s[0]) {
        WordsSpec(s[1..]);
        var r := Words(s);
        assert r == Words(s[1..]);
        forall i | 0 <= i < |r| ensures r[i] != [] && NoSpace(r[i]) {
          assert r[i] == Words(s[1..])[i];
        }
      } else {
        var k := WordEnd(s);
        WordEndSpec(s);
        WordsSpec(s[k..]);
        var r := Words(s);
        assert k >= 1 && r == [s[..k]] + Words(s[k..]);
        forall i | 0 <= i < |r| ensures r[i] != [] && NoSpace(r[i]) {
          if i > 0 {
            assert r[i] == Words(s[k..])[i - 1];
          } else {
            assert r[0] == s[..k];
          }
        }
      }
    }
  }

  /** `" ".join(words)`. */
  function JoinSpaced(words: seq<string>): string
    requires |words| >= 1
  {
    if |words| == 1 then words[0] else words[0] + " " + JoinSpaced(words[1..])
  }

  /** `s.split()` recovers the words a single space joined. */
  lemma {:induction false} WordsJoinSpaced(words: seq<string>)
    requires |words| >= 1
    requires forall i :: 0 <= i < |words| ==> words[i] != [] && NoSpace(words[i])
    ensures Words(JoinSpaced(words)) == words
  {
    var w := words[0];
    if |words| == 1 {
      WordsOfFirst(w, "");
      assert w + "" == w;
    } else {
      var t := " " + JoinSpaced(words[1..]);
      assert JoinSpaced(words) == w + t;
      WordsOfFirst(w, t);
      WordsJoinSpaced(words[1..]);
      assert t[1..] == JoinSpaced(words[1..]);
    }
  }

  /** A word followed by nothing or by whitespace is the first word. */
  lemma WordsOfFirst(w: string, t: string)
    requires w != [] && NoSpace(w)
    requires t == [] || IsSpace(t[0])
    ensures Words(w + t) == [w] + Words(t)
  {
    var s := w + t;
    var k := WordEnd(s);
    WordEndSpec(s);
    assert s[|w|..] == t;
    assert k == |w|;
    assert s[..k] == w;
  }

  /** `split()` cuts at every whitespace character, so the words on either
      side of one are split independently. With `Words([]) == []` and
      `WordsOfFirst` (a non-empty word alone is its only word), this
      determines `split()` on every string. */
  lemma {:induction false} WordsSplitAtSpace(a: string, c: char, b: string)
    requires IsSpace(c)
    ensures Words(a + [c] + b) == Words(a) + Words(b)
    decreases |a|
  {
    var s := a + [c] + b;
    if a == [] {
      assert s == [c] + b && s[1..] == b;
    } else if IsSpace(a[0]) {
      assert s[0] == a[0] && s[1..] == a[1..] + [c] + b;
      WordsSplitAtSpace(a[1..], c, b);
    } else {
      var k := WordEndBefore(a, [c] + b);
      assert s == a + ([c] + b);
      assert s[..k] == a[..k];
      assert s[k..] == a[k..] + [c] + b;
      WordsSplitAtSpace(a[k..], c, b);
    }
  }

  /** The first word of `a + t` ends inside `a` when `t` starts with
      whitespace. */
  lemma {:induction false} WordEndBefore(a: string, t: string) returns (k: nat)
    requires t != [] && IsSpace(t[0])
    ensures k == WordEnd(a + t) == WordEnd(a) <= |a|
    ensures a != [] && !IsSpace(a[0]) ==> k >= 1
  {
    if a == [] {
      assert a + t == t;
      k := 0;
    } else {
      assert (a + t)[0] == a[0] && (a + t)[1..] == a[1..] + t;
      if !IsSpace(a[0]) {
        var k1 := WordEndBefore(a[1..], t);
        k := k1 + 1;
      } else {
        k := 0;
      }
    }
  }

  /** `s` with every whitespace character removed. */
  function Unspaced(s: string): (r: string)
    ensures |r| <= |s|
  {
    if s == [] then [] else (if IsSpace(s[0]) then [] else [s[0]]) + Unspaced(s[1..])
  }

  /** The pieces of `parts` put end to end. */
  function JoinAll(parts: seq<string>): string {
    if parts == [] then [] else parts[0] + JoinAll(parts[1..])
  }

  /** `split()` loses only whitespace: its words put end to end are `s`
      with the whitespace removed. */
  lemma {:induction false} WordsUnspaced(s: string)
    ensures JoinAll(Words(s)) == Unspaced(s)
    decreases |s|
  {
    if s != [] {
      if IsSpace(s[0]) {
        WordsUnspaced(s[1..]);
      } else {
        var k := WordEnd(s);
        WordEndSpec(s);
        WordsUnspaced(s[k..]);
        assert Words(s) == [s[..k]] + Words(s[k..]);
        assert JoinAll(Words(s)) == s[..k] + JoinAll(Words(s[k..]));
        UnspacedWord(s, k);
      }
    }
  }

  /** A whitespace-free prefix survives `Unspaced` whole. */
  lemma {:induction false} UnspacedWord(s: string, k: nat)
    requires k <= |s| && NoSpace(s[..k])
    ensures Unspaced(s) == s[..k] + Unspaced(s[k..])
  {
    if k > 0 {
      assert s[0] == s[..k][0];
      assert s[1..][..k - 1] == s[..k][1..];
      assert NoSpace(s[1..][..k - 1]);
      UnspacedWord(s[1..], k - 1);
      assert s[1..][k - 1..] == s[k..];
      assert [s[0]] + s[1..][..k - 1] == s[..k];
    }
  }

  // ---------------------------------------------------------------- int()

  predicate IsDigit(ch: char) { '0' <= ch <= '9' }

  /** Python's decimal literal body: ASCII digits, with single underscores
      allowed only between two digits (read from the right: a digit,
      preceded by a digit string, possibly through one underscore). */
  predicate IsDigitString(s: string)
    decreases |s|
  {
    && |s| > 0
    && IsDigit(s[|s| - 1])
    && (|s| == 1 || IsDigitString(s[..|s| - 1]) || (s[|s| - 2] == '_' && IsDigitString(s[..|s| - 2])))
  }

  /** The value of the digits of `s`, read left to right, underscores skipped. */
  function DigitsValue(s: string): nat {
    if s == [] then 0
    else if IsDigit(s[|s| - 1]) then 10 * DigitsValue(s[..|s| - 1]) + (s[|s| - 1] as int - '0' as int)
    else DigitsValue(s[..|s| - 1])
  }

  /** The whitespace `int()` skips around its digits. ASCII text is kept
      as it is and only `\t`..`\r` and ' ' are skipped among ASCII
      characters; a non-ASCII `str.isspace()` character is skipped too.
      Unlike `str.strip()`, the separators `\x1c`..`\x1f` are not. */
  predicate IsIntSpace(ch: char) {
    IsSpace(ch) && !('\U{1c}' <= ch <= '\U{1f}')
  }

  /** The leading `int()` whitespace of `s` removed. */
  function IntStripLeft(s: string): (r: string)
    ensures |r| <= |s|
  {
    if s != [] && IsIntSpace(s[0]) then IntStripLeft(s[1..]) else s
  }

  /** The trailing `int()` whitespace of `s` removed. */
  function IntStripRight(s: string): (r: string)
    ensures |r| <= |s|
  {
    if s != [] && IsIntSpace(s[|s| - 1]) then IntStripRight(s[..|s| - 1]) else s
  }

  /** The text `int()` reads: `s` without `int()` whitespace at either end. */
  function IntStrip(s: string): string {
    IntStripRight(IntStripLeft(s))
  }

  /** `IntStripLeft` drops exactly the leading run of `int()` whitespace. */
  lemma {:induction false} IntStripLeftSpec(s: string)
    ensures var r := IntStripLeft(s);
      && r == s[|s| - |r|..]
      && (forall k :: 0 <= k < |s| - |r| ==> IsIntSpace(s[k]))
      && (r == [] || !IsIntSpace(r[0]))
  {
    if s != [] && IsIntSpace(s[0]) {
      IntStripLeftSpec(s[1..]);
      var r := IntStripLeft(s);
      assert s[1..][|s| - 1 - |r|..] == s[|s| - |r|..];
      forall k | 0 <= k < |s| - |r| ensures IsIntSpace(s[k]) {
        if k > 0 {
          assert s[k] == s[1..][k - 1];
        }
      }
    }
  }

  /** `IntStripRight` drops exactly the trailing run of `int()` whitespace. */
  lemma {:induction false} IntStripRightSpec(s: string)
    ensures var r := IntStripRight(s);
      && r == s[..|r|]
      && (forall k :: |r| <= k < |s| ==> IsIntSpace(s[k]))
      && (r == [] || !IsIntSpace(r[|r| - 1]))
  {
    if s != [] && IsIntSpace(s[|s| - 1]) {
      var t := s[..|s| - 1];
      IntStripRightSpec(t);
      var r := IntStripRight(s);
      assert t[..|r|] == s[..|r|];
      forall k | |r| <= k < |s| ensures IsIntSpace(s[k]) {
        if k < |s| - 1 {
          assert s[k] == t[k];
        }
      }
    }
  }

  /** The text `int()` reads is the infix of `s` between its leading and
      trailing runs of `int()` whitespace. */
  lemma IntStripSpec(s: string)
    ensures var r := IntStrip(s); var i := |s| - |IntStripLeft(s)|;
      && (r == [] || (!IsIntSpace(r[0]) && !IsIntSpace(r[|r| - 1])))
      && i + |r| <= |s| && r == s[i..i + |r|]
      && (forall k :: 0 <= k < i ==> IsIntSpace(s[k]))
      && (forall k :: i + |r| <= k < |s| ==> IsIntSpace(s[k]))
  {
    var l := IntStripLeft(s);
    IntStripLeftSpec(s);
    IntStripRightSpec(l);
    var r := IntStripRight(l);
    var i := |s| - |l|;
    SliceOfSuffix(s, i, |r|);
    if r != [] {
      assert r[0] == l[0];
    }
    forall k | i + |r| <= k < |s| ensures IsIntSpace(s[k]) {
      assert s[k] == l[k - i];
    }
  }

  /** Text with no `int()` whitespace at either end is read as it is. */
  lemma IntStripUnchanged(s: string)
    requires s == [] || (!IsIntSpace(s[0]) && !IsIntSpace(s[|s| - 1]))
    ensures IntStrip(s) == s
  {
  }

  /** `int(s)` for a string `s`: surrounding `int()` whitespace is ignored,
      then an optional `+` or `-` sign and a digit string; anything else
      raises ValueError, modelled as None. */
  function ParseInt(s: string): (r: Option<int>)
    ensures IntStrip(s) == [] ==> r.None?
  {
    var t := IntStrip(s);
    if |t| > 0 && t[0] == '-' && IsDigitString(t[1..]) then Some(0 - DigitsValue(t[1..]) as int)
    else if |t| > 0 && t[0] == '+' && IsDigitString(t[1..]) then Some(DigitsValue(t[1..]))
    else if IsDigitString(t) then Some(DigitsValue(t))
    else None
  }

  /** `int(s)` succeeds exactly when `s` without its `int()` whitespace is
      a digit string, possibly after one sign. */
  lemma ParseIntSpec(s: string)
    ensures ParseInt(s).Some? <==> var t := IntStrip(s);
      IsDigitString(t) || (|t| > 0 && (t[0] == '+' || t[0] == '-') && IsDigitString(t[1..]))
  {
  }

  /** `str(n)` for a non-negative integer. */
  function NatToString(n: nat): string {
    var d := ['0' + ((n % 10) as char)];
    if n < 10 then d else NatToString(n / 10) + d
  }

  /** `str(n)` is a digit string: ASCII digits only. */
  lemma {:induction false} NatToStringDigits(n: nat)
    ensures var s := NatToString(n); IsDigitString(s) && forall k :: 0 <= k < |s| ==> IsDigit(s[k])
  {
    var s := NatToString(n);
    if n >= 10 {
      NatToStringDigits(n / 10);
      var p := NatToString(n / 10);
      assert s[..|s| - 1] == p;
      forall k | 0 <= k < |s| ensures IsDigit(s[k]) {
        if k < |p| {
          assert s[k] == p[k];
        }
      }
    }
  }

  /** `str(n)` for any integer. */
  function IntToString(n: int): string {
    if n < 0 then "-" + NatToString(-n) else NatToString(n)
  }

  /** Reading back the digits of `str(n)` gives `n`. */
  lemma {:induction false} DigitsValueOfNat(n: nat)
    ensures DigitsValue(NatToString(n)) == n
  {
    var s := NatToString(n);
    if n >= 10 {
      DigitsValueOfNat(n / 10);
      assert s[..|s| - 1] == NatToString(n / 10);
    }
  }

  /** `int(str(n)) == n`. */
  lemma IntToStringRoundTrip(n: int)
    ensures ParseInt(IntToString(n)) == Some(n)
  {
    var s := IntToString(n);
    var d := NatToString(if n < 0 then -n else n);
    NatToStringDigits(if n < 0 then -n else n);
    DigitsValueOfNat(if n < 0 then -n else n);
    assert IsDigit(d[0]) && IsDigit(d[|d| - 1]);
    if n < 0 {
      assert s == "-" + d && s[1..] == d;
      assert s[|s| - 1] == d[|d| - 1];
      IntStripUnchanged(s);
      assert IntStrip(s) == s;
    } else {
      assert s == d;
      IntStripUnchanged(s);
      assert IntStrip(s) == s;
    }
  }

  // ------------------------------------------------------- os.path.join

  /** `os.path.join(a, b)` under the POSIX rules: an absolute `b` replaces
      `a`; otherwise `b` is appended, with a `/` inserted unless `a` is empty
      or already ends in one. */
  function PathJoin(a: string, b: string): (r: string)
    ensures |r| >= |b| && r[|r| - |b|..] == b
  {
    if |b| > 0 && b[0] == '/' then b
    else if a == [] || a[|a| - 1] == '/' then a + b
    else a + "/" + b
  }

  /** The joined path ends with `b`; an absolute `b` is the whole result;
      otherwise the result starts with `a`, and exactly one `/` separates a
      non-empty `a` from `b` unless `a` already ends in `/`. */
  lemma PathJoinSpec(a: string, b: string)
    ensures var r := PathJoin(a, b);
      && |r| >= |b| && r[|r| - |b|..] == b
      && (|b| > 0 && b[0] == '/' ==> r == b)
      && (!(|b| > 0 && b[0] == '/') ==>
            && |r| >= |a| && r[..|a|] == a
            && (|r| == |a| + |b| || (|r| == |a| + |b| + 1 && r[|a|] == '/')))
      && (!(|b| > 0 && b[0] == '/') && a != [] ==> '/' in r[|a| - 1..|r| - |b|])
  {
  }
}
