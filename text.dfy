/**
 * Character and string helpers shared by the Java classifiers (which
 * lower-case names before matching them) and the Python catalog tools (which
 * strip, split and upper-case fields). Letters are treated as ASCII: case
 * mapping changes only 'A'..'Z' and 'a'..'z', and whitespace is the ASCII
 * whitespace Python recognises.
 */
module Text {

  /** Python's `str.isspace` on an ASCII character: tab to carriage return, the four separators, and space. */
  predicate IsSpace(c: char)
  {
    9 <= c as int <= 13 || 28 <= c as int <= 32
  }

  predicate IsDigit(c: char)
  {
    '0' <= c <= '9'
  }

  /** Lower-casing of one character. */
  function Lower(c: char): (r: char)
    ensures 'A' <= c <= 'Z' ==> r as int == c as int + 32
    ensures !('A' <= c <= 'Z') ==> r == c
  {
    if 'A' <= c <= 'Z' then (c as int + 32) as char else c
  }

  /** Upper-casing of one character. */
  function Upper(c: char): (r: char)
    ensures 'a' <= c <= 'z' ==> r as int == c as int - 32
    ensures !('a' <= c <= 'z') ==> r == c
  {
    if 'a' <= c <= 'z' then (c as int - 32) as char else c
  }

  /** Java's `toLowerCase` / Python's `lower`. */
  function ToLower(s: string): (r: string)
    ensures |r| == |s| && forall i | 0 <= i < |s| :: r[i] == Lower(s[i])
  {
    if s == [] then [] else [Lower(s[0])] + ToLower(s[1..])
  }

  /** Python's `upper`. */
  function ToUpper(s: string): (r: string)
    ensures |r| == |s| && forall i | 0 <= i < |s| :: r[i] == Upper(s[i])
  {
    if s == [] then [] else [Upper(s[0])] + ToUpper(s[1..])
  }

  /** Lower-casing twice is lower-casing once. */
  lemma ToLowerIdempotent(s: string)
    ensures ToLower(ToLower(s)) == ToLower(s)
  {
  }

  /** Python's `s.split(sep)` for a one-character separator: every separator starts a new part. */
  function Split(s: string, sep: char): (parts: seq<string>)
    ensures |parts| >= 1
    ensures forall k | 0 <= k < |parts| :: sep !in parts[k]
  {
    if s == [] then [""]
    else
      var rest := Split(s[1..], sep);
      if s[0] == sep then [""] + rest
      else [[s[0]] + rest[0]] + rest[1..]
  }

  /** Python's `sep.join(parts)`. */
  function Join(parts: seq<string>, sep: char): string
    requires |parts| >= 1
  {
    if |parts| == 1 then parts[0] else parts[0] + [sep] + Join(parts[1..], sep)
  }

  /** Splitting loses nothing: joining the parts with the separator gives the text back. */
  lemma {:induction false} JoinSplit(s: string, sep: char)
    ensures Join(Split(s, sep), sep) == s
  {
    if s != [] {
      var rest := Split(s[1..], sep);
      JoinSplit(s[1..], sep);
      if s[0] == sep {
        assert Split(s, sep)[1..] == rest;
      } else {
        var parts := Split(s, sep);
        if |rest| == 1 {
          assert parts == [[s[0]] + rest[0]];
        } else {
          assert parts[1..] == rest[1..];
          assert Join(rest, sep) == rest[0] + [sep] + Join(rest[1..], sep);
        }
      }
    }
  }

  /** The parts without the empty ones at the end. */
  function DropTrailingEmpty(parts: seq<string>): (r: seq<string>)
    ensures |r| <= |parts| && r == parts[..|r|]
    ensures r == [] || r[|r| - 1] != ""
    ensures forall k | |r| <= k < |parts| :: parts[k] == ""
  {
    if parts == [] then []
    else if parts[|parts| - 1] == "" then DropTrailingEmpty(parts[..|parts| - 1])
    else parts
  }

  /**
   * Java's `s.split(regex)` for a one-character literal separator: the
   * text itself when the separator does not occur, otherwise Python's
   * split with the trailing empty parts removed.
   */
  function JavaSplit(s: string, sep: char): (parts: seq<string>)
    ensures sep !in s ==> parts == [s]
    ensures sep in s ==> parts == DropTrailingEmpty(Split(s, sep))
  {
    if sep !in s then [s] else DropTrailingEmpty(Split(s, sep))
  }

  /** The text without its leading characters satisfying `drop`. */
  function TrimLeft(s: string, drop: char -> bool): (r: string)
    ensures |r| <= |s| && r == s[|s| - |r|..]
    ensures r == [] || !drop(r[0])
    ensures forall k | 0 <= k < |s| - |r| :: drop(s[k])
  {
    if s != [] && drop(s[0]) then TrimLeft(s[1..], drop) else s
  }

  /** The text without its trailing characters satisfying `drop`. */
  function TrimRight(s: string, drop: char -> bool): (r: string)
    ensures |r| <= |s| && r == s[..|r|]
    ensures r == [] || !drop(r[|r| - 1])
    ensures forall k | |r| <= k < |s| :: drop(s[k])
  {
    if s != [] && drop(s[|s| - 1]) then TrimRight(s[..|s| - 1], drop) else s
  }

  /** Python's `s.strip(chars)`: both ends trimmed. */
  function Trim(s: string, drop: char -> bool): (r: string)
  {
    TrimRight(TrimLeft(s, drop), drop)
  }

  /** Python's `s.strip()`. */
  function Strip(s: string): (r: string)
    ensures r == [] || (!IsSpace(r[0]) && !IsSpace(r[|r| - 1]))
  {
    Trim(s, IsSpace)
  }

  /** Text that is empty or only whitespace: Python's `not s or s.strip() == ''`. */
  predicate Blank(s: string)
  {
    Strip(s) == []
  }

  /** Stripping text that neither starts nor ends with whitespace changes nothing. */
  lemma StripStripped(s: string)
    requires s == [] || (!IsSpace(s[0]) && !IsSpace(s[|s| - 1]))
    ensures Strip(s) == s
  {
  }

  predicate StartsWith(s: string, prefix: string)
  {
    |prefix| <= |s| && s[..|prefix|] == prefix
  }

  /** The longest prefix whose characters all satisfy `keep`. */
  function TakeWhile(s: string, keep: char -> bool): (w: string)
    ensures |w| <= |s| && w == s[..|w|]
    ensures forall k | 0 <= k < |w| :: keep(w[k])
    ensures |w| == |s| || !keep(s[|w|])
  {
    if s == [] || !keep(s[0]) then [] else [s[0]] + TakeWhile(s[1..], keep)
  }

  /** The leading run of non-whitespace characters. */
  function Word(s: string): (w: string)
    ensures |w| <= |s| && w == s[..|w|]
    ensures forall k | 0 <= k < |w| :: !IsSpace(w[k])
    ensures |w| == |s| || IsSpace(s[|w|])
  {
    TakeWhile(s, c => !IsSpace(c))
  }

  /** Python's `s.split()`: the maximal runs of non-whitespace characters. */
  function Words(s: string): (ws: seq<string>)
    ensures forall k | 0 <= k < |ws| :: ws[k] != [] && forall j | 0 <= j < |ws[k]| :: !IsSpace(ws[k][j])
    decreases |s|
  {
    if s == [] then []
    else if IsSpace(s[0]) then Words(s[1..])
    else
      var w := Word(s);
      [w] + Words(s[|w|..])
  }

  /**
   * `re.sub(r'\s+', ' ', s)`: every maximal whitespace run becomes one space.
   */
  function Collapse(s: string): (r: string)
    ensures |r| <= |s|
    ensures forall k | 0 <= k < |r| :: IsSpace(r[k]) ==> r[k] == ' '
    ensures s != [] && !IsSpace(s[0]) ==> r != [] && r[0] == s[0]
    ensures s != [] && IsSpace(s[0]) ==> r != [] && r[0] == ' '
    decreases |s|
  {
    if s == [] then []
    else if IsSpace(s[0]) then
      var rest := TrimLeft(s, IsSpace);
      " " + (if rest == [] then [] else [rest[0]] + Collapse(rest[1..]))
    else [s[0]] + Collapse(s[1..])
  }

  /** No two whitespace characters in a row. */
  predicate NoSpaceRuns(s: string)
  {
    forall k | 0 <= k < |s| - 1 :: !(IsSpace(s[k]) && IsSpace(s[k + 1]))
  }

  /** Collapsing leaves no whitespace runs. */
  lemma {:induction false} CollapseNoRuns(s: string)
    ensures NoSpaceRuns(Collapse(s))
    decreases |s|
  {
    if s == [] {
    } else if IsSpace(s[0]) {
      var rest := TrimLeft(s, IsSpace);
      if rest != [] {
        CollapseNoRuns(rest[1..]);
        var tail := [rest[0]] + Collapse(rest[1..]);
        assert !IsSpace(tail[0]);
        assert Collapse(s) == " " + tail;
      }
    } else {
      CollapseNoRuns(s[1..]);
      assert Collapse(s) == [s[0]] + Collapse(s[1..]);
    }
  }

  /** Text that ends with a non-whitespace character still does so after collapsing. */
  lemma {:induction false} CollapseLast(s: string)
    requires s != [] && !IsSpace(s[|s| - 1])
    ensures Collapse(s) != [] && !IsSpace(Collapse(s)[|Collapse(s)| - 1])
    decreases |s|
  {
    if IsSpace(s[0]) {
      var rest := TrimLeft(s, IsSpace);
      assert rest != [];
      if |rest| > 1 {
        assert rest[1..][|rest| - 2] == s[|s| - 1];
        CollapseLast(rest[1..]);
      }
    } else if |s| > 1 {
      assert s[1..][|s| - 2] == s[|s| - 1];
      CollapseLast(s[1..]);
    }
  }

  /** Text without runs whose only whitespace is ' ' is its own collapse. */
  lemma {:induction false} CollapseCollapsed(s: string)
    requires NoSpaceRuns(s) && forall k | 0 <= k < |s| :: IsSpace(s[k]) ==> s[k] == ' '
    ensures Collapse(s) == s
    decreases |s|
  {
    if s == [] {
    } else if IsSpace(s[0]) {
      var rest := TrimLeft(s, IsSpace);
      if |s| > 1 {
        assert !IsSpace(s[1]);
        assert rest == s[1..];
        CollapseCollapsed(s[2..]);
        assert s == " " + ([s[1]] + s[2..]);
      } else {
        assert rest == [];
      }
    } else {
      CollapseCollapsed(s[1..]);
      assert s == [s[0]] + s[1..];
    }
  }

  /**
   * The words of text that starts with the non-whitespace character `c`:
   * `c` is a word of its own when whitespace or the end follows it, and
   * otherwise begins the first word of the rest.
   */
  lemma WordsCons(c: char, t: string)
    requires !IsSpace(c)
    ensures var ws := Words(t);
            Words([c] + t) == if t == [] || IsSpace(t[0]) then [[c]] + ws else [[c] + ws[0]] + ws[1..]
  {
    var s := [c] + t;
    assert s[1..] == t;
    assert Word(s) == [c] + Word(t);
    if t == [] || IsSpace(t[0]) {
      assert Word(t) == [];
      assert s[|Word(s)|..] == t;
    } else {
      assert s[|Word(s)|..] == t[|Word(t)|..];
    }
  }

  /** Leading whitespace does not change the words. */
  lemma {:induction false} WordsAfterSpaces(sp: string, t: string)
    requires forall k | 0 <= k < |sp| :: IsSpace(sp[k])
    ensures Words(sp + t) == Words(t)
    decreases |sp|
  {
    if sp != [] {
      assert (sp + t)[0] == sp[0] && IsSpace(sp[0]);
      assert (sp + t)[1..] == sp[1..] + t;
      assert Words(sp + t) == Words(sp[1..] + t);
      WordsAfterSpaces(sp[1..], t);
    } else {
      assert sp + t == t;
    }
  }

  /** Trailing whitespace does not change the words. */
  lemma {:induction false} WordsBeforeSpaces(a: string, sp: string)
    requires forall k | 0 <= k < |sp| :: IsSpace(sp[k])
    ensures Words(a + sp) == Words(a)
    decreases |a|
  {
    if a == [] {
      assert a + sp == sp + [];
      WordsAfterSpaces(sp, []);
    } else if IsSpace(a[0]) {
      assert (a + sp)[1..] == a[1..] + sp;
      WordsBeforeSpaces(a[1..], sp);
    } else {
      var t := a[1..];
      assert a == [a[0]] + t;
      assert a + sp == [a[0]] + (t + sp);
      WordsBeforeSpaces(t, sp);
      WordsCons(a[0], t);
      WordsCons(a[0], t + sp);
      if t == [] {
        assert t + sp == sp;
      } else {
        assert (t + sp)[0] == t[0];
      }
    }
  }

  /** Dropping leading whitespace keeps the words. */
  lemma WordsTrimLeft(s: string)
    ensures Words(TrimLeft(s, IsSpace)) == Words(s)
  {
    var l := TrimLeft(s, IsSpace);
    var sp := s[..|s| - |l|];
    assert forall k | 0 <= k < |sp| :: IsSpace(sp[k]) by {
      forall k | 0 <= k < |sp| ensures IsSpace(sp[k]) {
        assert sp[k] == s[k];
      }
    }
    assert s == sp + l;
    WordsAfterSpaces(sp, l);
  }

  /** Dropping trailing whitespace keeps the words. */
  lemma WordsTrimRight(s: string)
    ensures Words(TrimRight(s, IsSpace)) == Words(s)
  {
    var r := TrimRight(s, IsSpace);
    var sp := s[|r|..];
    assert forall k | 0 <= k < |sp| :: IsSpace(sp[k]) by {
      forall k | 0 <= k < |sp| ensures IsSpace(sp[k]) {
        assert sp[k] == s[|r| + k];
      }
    }
    assert s == r + sp;
    WordsBeforeSpaces(r, sp);
  }

  /** Stripping keeps the words. */
  lemma WordsStrip(s: string)
    ensures Words(Strip(s)) == Words(s)
  {
    var l := TrimLeft(s, IsSpace);
    WordsTrimLeft(s);
    WordsTrimRight(l);
  }

  /** Collapsing whitespace runs keeps the words. */
  lemma {:induction false} WordsCollapse(s: string)
    ensures Words(Collapse(s)) == Words(s)
    decreases |s|
  {
    if s == [] {
    } else if IsSpace(s[0]) {
      var rest := TrimLeft(s, IsSpace);
      var n := |s| - |rest|;
      assert s == s[..n] + rest;
      WordsAfterSpaces(s[..n], rest);
      var tail := if rest == [] then [] else [rest[0]] + Collapse(rest[1..]);
      assert Collapse(s) == " " + tail;
      assert (" " + tail)[1..] == tail;
      if rest != [] {
        assert Collapse(rest) == tail;
        WordsCollapse(rest);
      }
    } else {
      var t := s[1..];
      assert s == [s[0]] + t;
      WordsCollapse(t);
      WordsCons(s[0], t);
      WordsCons(s[0], Collapse(t));
      assert Collapse(s) == [s[0]] + Collapse(t);
    }
  }

  /** Each word upper-cased. */
  function UpperEach(ws: seq<string>): (us: seq<string>)
    ensures |us| == |ws| && forall k | 0 <= k < |ws| :: us[k] == ToUpper(ws[k])
  {
    seq(|ws|, k requires 0 <= k < |ws| => ToUpper(ws[k]))
  }

  /** The words of upper-cased text are the upper-cased words. */
  lemma {:induction false} WordsUpper(s: string)
    ensures Words(ToUpper(s)) == UpperEach(Words(s))
    decreases |s|
  {
    if s != [] {
      var t := s[1..];
      assert s == [s[0]] + t;
      assert ToUpper(s) == [Upper(s[0])] + ToUpper(t);
      UpperKeepsSpace(s[0]);
      WordsUpper(t);
      if IsSpace(s[0]) {
        assert ToUpper(s)[0] == s[0];
        assert ToUpper(s)[1..] == ToUpper(t);
      } else {
        WordsUpperCons(s[0], t);
      }
    }
  }

  /** The step of `WordsUpper` for a leading non-whitespace character. */
  lemma WordsUpperCons(c: char, t: string)
    requires !IsSpace(c) && Words(ToUpper(t)) == UpperEach(Words(t))
    ensures Words([Upper(c)] + ToUpper(t)) == UpperEach(Words([c] + t))
  {
    UpperKeepsSpace(c);
    WordsCons(c, t);
    WordsCons(Upper(c), ToUpper(t));
    if t == [] {
      assert ToUpper(t) == [];
      assert ToUpper([c]) == [Upper(c)];
    } else {
      UpperKeepsSpace(t[0]);
      assert ToUpper(t)[0] == Upper(t[0]);
      if IsSpace(t[0]) {
        UpperEachSingle(c, Words(t));
      } else {
        assert Words(t) != [];
        UpperEachJoined(c, Words(t));
      }
    }
  }

  /** Upper-casing a separate one-letter word in front of the others. */
  lemma UpperEachSingle(c: char, ws: seq<string>)
    ensures UpperEach([[c]] + ws) == [[Upper(c)]] + UpperEach(ws)
  {
    assert ToUpper([c]) == [Upper(c)];
  }

  /** Upper-casing a letter joined to the front of the first word. */
  lemma UpperEachJoined(c: char, ws: seq<string>)
    requires ws != []
    ensures UpperEach([[c] + ws[0]] + ws[1..]) == [[Upper(c)] + UpperEach(ws)[0]] + UpperEach(ws)[1..]
  {
    assert ToUpper([c] + ws[0]) == [Upper(c)] + ToUpper(ws[0]);
  }

  /**
   * Trimmed text whose only whitespace is single plain spaces is its words
   * joined by spaces.
   */
  lemma {:induction false} JoinWords(r: string)
    requires r != [] && !IsSpace(r[0]) && !IsSpace(r[|r| - 1]) && NoSpaceRuns(r)
    requires forall k | 0 <= k < |r| :: IsSpace(r[k]) ==> r[k] == ' '
    ensures |Words(r)| >= 1 && Join(Words(r), ' ') == r
    decreases |r|
  {
    var w := Word(r);
    FirstWordOfClean(r);
    if |w| < |r| {
      var rest := r[|w| + 1..];
      CleanSuffix(r, |w| + 1);
      JoinWords(rest);
      WordsAfterSpaces([' '], rest);
      JoinCons(w, Words(rest));
    }
  }

  /** Joining a word in front of at least one other puts the separator between. */
  lemma JoinCons(w: string, ws: seq<string>)
    requires |ws| >= 1
    ensures Join([w] + ws, ' ') == w + [' '] + Join(ws, ' ')
  {
    assert ([w] + ws)[1..] == ws;
  }

  /**
   * The first word of trimmed text with single plain spaces is non-empty,
   * and is either the whole text or followed by one space and more text.
   */
  lemma FirstWordOfClean(r: string)
    requires r != [] && !IsSpace(r[0]) && !IsSpace(r[|r| - 1])
    requires forall k | 0 <= k < |r| :: IsSpace(r[k]) ==> r[k] == ' '
    ensures var w := Word(r);
            w != [] && Words(r) == [w] + Words(r[|w|..]) &&
            (|w| == |r| ==> w == r && r[|w|..] == []) &&
            (|w| < |r| ==> |w| + 1 < |r| && r[|w|..] == [' '] + r[|w| + 1..] && r == w + [' '] + r[|w| + 1..])
  {
    var w := Word(r);
    assert w == r[..|w|];
    assert w != [];
    if |w| < |r| {
      var n := |w|;
      assert IsSpace(r[n]) && r[n] == ' ';
      assert n != |r| - 1;
      assert r[n..] == [' '] + r[n + 1..];
      assert r == r[..n] + r[n..];
    } else {
      assert w == r;
    }
  }

  /** What follows a space of trimmed text with single plain spaces is again such text. */
  lemma CleanSuffix(r: string, i: nat)
    requires 0 < i < |r| && IsSpace(r[i - 1])
    requires r != [] && !IsSpace(r[0]) && !IsSpace(r[|r| - 1]) && NoSpaceRuns(r)
    requires forall k | 0 <= k < |r| :: IsSpace(r[k]) ==> r[k] == ' '
    ensures var rest := r[i..];
            rest != [] && !IsSpace(rest[0]) && !IsSpace(rest[|rest| - 1]) && NoSpaceRuns(rest) &&
            forall k | 0 <= k < |rest| :: IsSpace(rest[k]) ==> rest[k] == ' '
  {
    var rest := r[i..];
    forall k | 0 <= k < |rest| - 1
      ensures !(IsSpace(rest[k]) && IsSpace(rest[k + 1]))
    {
      assert rest[k] == r[i + k] && rest[k + 1] == r[i + k + 1];
    }
    forall k | 0 <= k < |rest|
      ensures IsSpace(rest[k]) ==> rest[k] == ' '
    {
      assert rest[k] == r[i + k];
    }
  }

  /** Stripping, collapsing and upper-casing keep the words, upper-cased. */
  lemma CleaningKeepsWords(s: string)
    ensures Words(ToUpper(Collapse(Strip(s)))) == Words(ToUpper(s))
  {
    WordsUpper(Collapse(Strip(s)));
    WordsCollapse(Strip(s));
    WordsStrip(s);
    WordsUpper(s);
  }

  /** Upper-casing leaves whitespace where it was. */
  lemma UpperKeepsSpace(c: char)
    ensures IsSpace(Upper(c)) <==> IsSpace(c)
    ensures IsSpace(c) ==> Upper(c) == c
  {
  }

  /** Upper-casing twice is upper-casing once. */
  lemma ToUpperIdempotent(s: string)
    ensures ToUpper(ToUpper(s)) == ToUpper(s)
  {
    assert forall i | 0 <= i < |s| :: Upper(Upper(s[i])) == Upper(s[i]);
  }
}
