/** `escapeUnescapedBackticks`: the two chained regular-expression
    replacements that make every backtick of a text safe inside a template
    literal. */
module StringUtils {
  import Seqs

  const Backslash: char := '\\'
  const Backtick: char := '`'

  /** The number of backticks in `s`. */
  function Backticks(s: string): nat
  {
    if s == [] then 0 else Backticks(s[..|s| - 1]) + (if s[|s| - 1] == Backtick then 1 else 0)
  }

  /** Every backtick of `s` is immediately preceded by a backslash. */
  predicate Escaped(s: string)
  {
    forall i :: 0 <= i < |s| && s[i] == Backtick ==> i > 0 && s[i - 1] == Backslash
  }

  /** Every backtick of `s` past the first character is preceded by a backslash. */
  predicate EscapedAfterFirst(s: string)
  {
    forall i :: 0 < i < |s| && s[i] == Backtick ==> s[i - 1] == Backslash
  }

  /** `s.replace(/(?<!\\)`/g, '\\`')`: a backslash is inserted before every
      backtick that the input does not already precede with one. */
  function EscapeBare(s: string): string
  {
    if s == [] then []
    else
      var n := |s| - 1;
      EscapeBare(s[..n]) + EscapeOne(s[n], n > 0 && s[n - 1] == Backslash)
  }

  /** What the first replacement makes of one character, given whether a
      backslash stands before it. */
  function EscapeOne(c: char, afterBackslash: bool): string
  {
    if c == Backtick && !afterBackslash then [Backslash, Backtick] else [c]
  }

  /** `s.replace(/\\\\`/g, '\\`')`: scanning left to right, each backslash
      pair followed by a backtick loses one backslash. */
  function CollapseDouble(s: string): (r: string)
    ensures s != [] ==> r != [] && r[0] == s[0]
  {
    if s == [] then []
    else if |s| >= 3 && s[0] == Backslash && s[1] == Backslash && s[2] == Backtick then
      [Backslash, Backtick] + CollapseDouble(s[3..])
    else
      [s[0]] + CollapseDouble(s[1..])
  }

  /** `escapeUnescapedBackticks(input)`. */
  function EscapeUnescapedBackticks(input: string): string
  {
    CollapseDouble(EscapeBare(input))
  }

  /** The first replacement ends with the input's last character. */
  lemma EscapeBareLast(s: string)
    requires s != []
    ensures |EscapeBare(s)| > 0 && EscapeBare(s)[|EscapeBare(s)| - 1] == s[|s| - 1]
  {
  }

  /** The first replacement keeps the number of backticks. */
  lemma {:induction false} EscapeBareCount(s: string)
    ensures Backticks(EscapeBare(s)) == Backticks(s)
  {
    if s != [] {
      var n := |s| - 1;
      EscapeBareCount(s[..n]);
      var tail: string := if s[n] == Backtick && !(n > 0 && s[n - 1] == Backslash) then [Backslash, Backtick] else [s[n]];
      assert EscapeBare(s) == EscapeBare(s[..n]) + tail;
      BackticksAppend(EscapeBare(s[..n]), tail);
      if |tail| == 2 {
        BackticksPair();
      } else {
        BackticksSingle(s[n]);
      }
    }
  }

  /** The first replacement leaves every backtick escaped. */
  lemma {:induction false} EscapeBareEscapes(s: string)
    ensures Escaped(EscapeBare(s))
  {
    if s != [] {
      var n := |s| - 1;
      var e := EscapeBare(s[..n]);
      EscapeBareEscapes(s[..n]);
      var tail: string := if s[n] == Backtick && !(n > 0 && s[n - 1] == Backslash) then [Backslash, Backtick] else [s[n]];
      assert EscapeBare(s) == e + tail;
      if n > 0 {
        EscapeBareLast(s[..n]);
        assert s[..n][n - 1] == s[n - 1];
      }
      forall i | 0 <= i < |e + tail| && (e + tail)[i] == Backtick
        ensures i > 0 && (e + tail)[i - 1] == Backslash
      {
        if i < |e| {
          assert e[i] == Backtick;
        }
      }
    }
  }

  lemma BackticksPair()
    ensures Backticks([Backslash, Backtick]) == 1
  {
    assert [Backslash, Backtick][..1] == [Backslash];
    BackticksSingle(Backslash);
  }

  lemma BackticksSingle(c: char)
    ensures Backticks([c]) == if c == Backtick then 1 else 0
  {
    assert [c][..0] == [];
  }

  lemma {:induction false} BackticksAppend(a: string, b: string)
    ensures Backticks(a + b) == Backticks(a) + Backticks(b)
    decreases |b|
  {
    if b != [] {
      var m := |b| - 1;
      BackticksAppend(a, b[..m]);
      assert (a + b)[..|a + b| - 1] == a + b[..m];
    } else {
      assert a + b == a;
    }
  }

  /** The second replacement keeps every backtick past the first character
      escaped and keeps the number of backticks. */
  lemma {:induction false} CollapseDoubleKeeps(s: string)
    requires EscapedAfterFirst(s)
    ensures EscapedAfterFirst(CollapseDouble(s))
    ensures Backticks(CollapseDouble(s)) == Backticks(s)
    decreases |s|
  {
    if s != [] {
      var r := CollapseDouble(s);
      if |s| >= 3 && s[0] == Backslash && s[1] == Backslash && s[2] == Backtick {
        var t := s[3..];
        assert EscapedAfterFirst(t) by {
          forall i | 0 < i < |t| && t[i] == Backtick ensures t[i - 1] == Backslash {
            assert s[i + 3] == t[i] && s[i + 2] == t[i - 1];
          }
        }
        CollapseDoubleKeeps(t);
        var c := CollapseDouble(t);
        assert r == [Backslash, Backtick] + c;
        // the character after a backtick is not a backtick, and `c` starts with it
        assert |s| > 3 ==> s[3] != Backtick;
        assert c != [] ==> c[0] == s[3];
        forall i | 0 < i < |r| && r[i] == Backtick ensures r[i - 1] == Backslash {
          if i > 2 {
            assert r[i] == c[i - 2] && r[i - 1] == c[i - 3];
          }
        }
        assert s == [Backslash, Backslash, Backtick] + t;
        BackticksAppend([Backslash, Backslash, Backtick], t);
        BackticksAppend([Backslash, Backtick], c);
        BackticksSingle(Backslash);
        BackticksSingle(Backtick);
        assert [Backslash, Backslash, Backtick] == [Backslash] + [Backslash, Backtick];
        BackticksAppend([Backslash], [Backslash, Backtick]);
        assert [Backslash, Backtick] == [Backslash] + [Backtick];
        BackticksAppend([Backslash], [Backtick]);
      } else {
        var t := s[1..];
        assert EscapedAfterFirst(t) by {
          forall i | 0 < i < |t| && t[i] == Backtick ensures t[i - 1] == Backslash {
            assert s[i + 1] == t[i] && s[i] == t[i - 1];
          }
        }
        CollapseDoubleKeeps(t);
        var c := CollapseDouble(t);
        assert r == [s[0]] + c;
        forall i | 0 < i < |r| && r[i] == Backtick ensures r[i - 1] == Backslash {
          if i == 1 {
            assert c[0] == t[0] == s[1];
          } else {
            assert r[i] == c[i - 1] && r[i - 1] == c[i - 2];
          }
        }
        assert s == [s[0]] + t;
        BackticksAppend([s[0]], t);
        BackticksAppend([s[0]], c);
      }
    }
  }

  /** The output has every backtick preceded by a backslash and as many
      backticks as the input. */
  lemma EscapesEveryBacktick(input: string)
    ensures Escaped(EscapeUnescapedBackticks(input))
    ensures Backticks(EscapeUnescapedBackticks(input)) == Backticks(input)
  {
    var e := EscapeBare(input);
    EscapeBareEscapes(input);
    EscapeBareCount(input);
    CollapseDoubleKeeps(e);
    var r := CollapseDouble(e);
    if r != [] {
      assert r[0] == e[0];
    }
  }

  /** Neither replacement can match in a text without backticks. */
  lemma {:induction false} NoBacktickUnchanged(input: string)
    requires Backtick !in input
    ensures EscapeBare(input) == input
    ensures CollapseDouble(input) == input
    ensures EscapeUnescapedBackticks(input) == input
  {
    EscapeBareNoBacktick(input);
    CollapseNoBacktick(input);
  }

  /** The first pattern needs a backtick to match. */
  lemma {:induction false} EscapeBareNoBacktick(s: string)
    requires Backtick !in s
    ensures EscapeBare(s) == s
  {
    if s != [] {
      var n := |s| - 1;
      assert s[n] in s;
      EscapeBareNoBacktick(s[..n]);
      assert s[..n] + [s[n]] == s;
    }
  }

  /** The second pattern ends in a backtick, so it cannot match either. */
  lemma {:induction false} CollapseNoBacktick(s: string)
    requires Backtick !in s
    ensures CollapseDouble(s) == s
  {
    if s != [] {
      assert |s| >= 3 ==> s[2] in s;
      CollapseNoBacktick(s[1..]);
      assert [s[0]] + s[1..] == s;
    }
  }

  /** `a` cannot start a backslash escape that continues into what follows it. */
  predicate NoTrailingBackslash(a: string)
  {
    a == [] || a[|a| - 1] != Backslash
  }

  /** The first replacement works on the two sides of a boundary separately
      when the left side does not end in a backslash: the lookbehind at the
      start of `b` then sees no backslash, as at the start of a text. */
  lemma {:induction false} EscapeBareAppend(a: string, b: string)
    requires NoTrailingBackslash(a)
    ensures EscapeBare(a + b) == EscapeBare(a) + EscapeBare(b)
    decreases |b|
  {
    if b == [] {
      assert a + b == a;
    } else {
      var init, c := b[..|b| - 1], b[|b| - 1];
      assert b == init + [c];
      assert a + b == (a + init) + [c];
      var after := init != [] && init[|init| - 1] == Backslash;
      assert (a + init != [] && (a + init)[|a + init| - 1] == Backslash) == after by {
        if init != [] {
          assert (a + init)[|a + init| - 1] == init[|init| - 1];
        } else if a != [] {
          assert a + init == a;
        }
      }
      EscapeBareSnoc(a + init, c);
      EscapeBareSnoc(init, c);
      EscapeBareAppend(a, init);
      Seqs.ConcatAssoc(EscapeBare(a), EscapeBare(init), EscapeOne(c, after));
    }
  }

  /** The first replacement on one more character appends what that
      character becomes. */
  lemma EscapeBareSnoc(s: string, c: char)
    ensures EscapeBare(s + [c]) == EscapeBare(s) + EscapeOne(c, s != [] && s[|s| - 1] == Backslash)
  {
    var t := s + [c];
    assert t[..|t| - 1] == s && t[|t| - 1] == c;
    assert s != [] ==> t[|t| - 2] == s[|s| - 1];
  }

  /** The second replacement, too, works on the two sides separately when the
      left side does not end in a backslash: no match can straddle the boundary. */
  lemma {:induction false} CollapseDoubleAppend(a: string, b: string)
    requires NoTrailingBackslash(a)
    ensures CollapseDouble(a + b) == CollapseDouble(a) + CollapseDouble(b)
    decreases |a|
  {
    var ab := a + b;
    if a == [] {
      assert ab == b;
    } else if |a| >= 3 && a[0] == Backslash && a[1] == Backslash && a[2] == Backtick {
      assert ab[0] == a[0] && ab[1] == a[1] && ab[2] == a[2];
      assert ab[3..] == a[3..] + b;
      CollapseDoubleAppend(a[3..], b);
      Seqs.ConcatAssoc([Backslash, Backtick], CollapseDouble(a[3..]), CollapseDouble(b));
    } else {
      assert !(|ab| >= 3 && ab[0] == Backslash && ab[1] == Backslash && ab[2] == Backtick) by {
        if |a| >= 3 {
          assert ab[0] == a[0] && ab[1] == a[1] && ab[2] == a[2];
        } else if |a| == 2 {
          assert ab[1] == a[1];
        } else {
          assert ab[0] == a[0];
        }
      }
      assert ab[1..] == a[1..] + b && ab[0] == a[0];
      CollapseDoubleAppend(a[1..], b);
      Seqs.ConcatAssoc([a[0]], CollapseDouble(a[1..]), CollapseDouble(b));
    }
  }

  /** The escaping works on the two sides of a boundary separately when the
      left side does not end in a backslash. */
  lemma EscapeAppend(a: string, b: string)
    requires NoTrailingBackslash(a)
    ensures EscapeUnescapedBackticks(a + b) == EscapeUnescapedBackticks(a) + EscapeUnescapedBackticks(b)
  {
    EscapeBareAppend(a, b);
    if a != [] {
      EscapeBareLast(a);
    }
    CollapseDoubleAppend(EscapeBare(a), EscapeBare(b));
  }

  /** A backtick alone becomes an escaped backtick. */
  lemma EscapeLoneBacktick()
    ensures EscapeUnescapedBackticks("`") == "\\`"
  {
    assert "`"[..0] == [];
    assert EscapeBare("`") == "\\`";
    assert "\\`"[1..] == "`" && "`"[1..] == [];
  }

  /** An escaped backtick alone is kept as it is. */
  lemma EscapeKeptPair()
    ensures EscapeUnescapedBackticks("\\`") == "\\`"
  {
    var m: string := [Backslash, Backtick];
    assert m == "\\`";
    EscapeBareSnoc([], Backslash);
    assert [] + [Backslash] == [Backslash];
    EscapeBareSnoc([Backslash], Backtick);
    assert [Backslash] + [Backtick] == m;
    assert m[1..] == [Backtick] && [Backtick][1..] == [];
  }

  /** A backtick behind two backslashes alone comes out behind one. */
  lemma EscapeDoublePair()
    ensures EscapeUnescapedBackticks("\\\\`") == "\\`"
  {
    var m: string := [Backslash, Backslash, Backtick];
    assert m == "\\\\`";
    EscapeBareSnoc([], Backslash);
    assert [] + [Backslash] == [Backslash];
    EscapeBareSnoc([Backslash], Backslash);
    assert [Backslash] + [Backslash] == [Backslash, Backslash];
    EscapeBareSnoc([Backslash, Backslash], Backtick);
    assert [Backslash, Backslash] + [Backtick] == m;
    assert m[3..] == [];
  }

  /** An already escaped backtick, standing anywhere after a character other
      than a backslash, is kept as it is, and the text around it is escaped
      on its own. */
  lemma EscapedBacktickKept(p: string, q: string)
    requires NoTrailingBackslash(p)
    ensures EscapeUnescapedBackticks(p + "\\`" + q)
            == EscapeUnescapedBackticks(p) + "\\`" + EscapeUnescapedBackticks(q)
  {
    var m: string := "\\`";
    EscapeKeptPair();
    EscapeAppend(m, q);
    EscapeAppend(p, m + q);
    Seqs.ConcatAssoc(p, m, q);
    Seqs.ConcatAssoc(EscapeUnescapedBackticks(p), m, EscapeUnescapedBackticks(q));
  }

  /** A backtick behind two backslashes, standing anywhere after a character
      other than a backslash, comes out behind one, and the text around it is
      escaped on its own. */
  lemma DoubleBackslashCollapsed(p: string, q: string)
    requires NoTrailingBackslash(p)
    ensures EscapeUnescapedBackticks(p + "\\\\`" + q)
            == EscapeUnescapedBackticks(p) + "\\`" + EscapeUnescapedBackticks(q)
  {
    var m: string := "\\\\`";
    EscapeDoublePair();
    EscapeAppend(m, q);
    EscapeAppend(p, m + q);
    Seqs.ConcatAssoc(p, m, q);
    Seqs.ConcatAssoc(EscapeUnescapedBackticks(p), "\\`", EscapeUnescapedBackticks(q));
  }

  /** A bare backtick, standing anywhere after a character other than a
      backslash, gains one backslash, and the text around it is escaped on
      its own. */
  lemma BareBacktickEscaped(p: string, q: string)
    requires NoTrailingBackslash(p)
    ensures EscapeUnescapedBackticks(p + "`" + q)
            == EscapeUnescapedBackticks(p) + "\\`" + EscapeUnescapedBackticks(q)
  {
    EscapeLoneBacktick();
    EscapeAppend("`", q);
    EscapeAppend(p, "`" + q);
    Seqs.ConcatAssoc(p, "`", q);
    Seqs.ConcatAssoc(EscapeUnescapedBackticks(p), "\\`", EscapeUnescapedBackticks(q));
  }
}
