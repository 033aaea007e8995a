/**
 * The two string operations the teleprompter takes from JavaScript:
 * `String.prototype.trim` (the submit gate of the script editor) and
 * `script.split(/\s+/).filter(Boolean)` (the word list of the prompter).
 * Both use the same notion of whitespace: the WhiteSpace and
 * LineTerminator productions of ECMA-262 (sections 12.2 and 12.3).
 */
module Text {

  /** A character of the ECMAScript WhiteSpace or LineTerminator productions
      (tab, vertical tab, form feed, space, no-break space, byte order mark,
      the Unicode space separators, line feed, carriage return, line and
      paragraph separators). */
  predicate IsWhitespace(c: char) {
    || c == '\t' || c == '\U{000B}' || c == '\U{000C}' || c == ' '
    || c == '\U{00A0}' || c == '\U{FEFF}'
    || c == '\U{1680}' || ('\U{2000}' <= c <= '\U{200A}')
    || c == '\U{202F}' || c == '\U{205F}' || c == '\U{3000}'
    || c == '\n' || c == '\r' || c == '\U{2028}' || c == '\U{2029}'
  }

  predicate AllWhitespace(s: string) {
    forall i :: 0 <= i < |s| ==> IsWhitespace(s[i])
  }

  predicate NoWhitespace(s: string) {
    forall i :: 0 <= i < |s| ==> !IsWhitespace(s[i])
  }

  /** The characters of `s` that are not whitespace, in order. */
  function Visible(s: string): string {
    if s == [] then []
    else (if IsWhitespace(s[0]) then [] else [s[0]]) + Visible(s[1..])
  }

  /** The concatenation of a list of words. */
  function Concat(words: seq<string>): string {
    if words == [] then [] else words[0] + Concat(words[1..])
  }

  // ---------------------------------------------------------------------
  // trim

  /** `s` without its leading whitespace: the longest suffix of `s` that
      does not start with whitespace. */
  function TrimStart(s: string): (r: string)
    ensures |r| <= |s|
    ensures s != [] && IsWhitespace(s[0]) ==> |r| < |s|
  {
    if s != [] && IsWhitespace(s[0]) then TrimStart(s[1..]) else s
  }

  /** `s` without its trailing whitespace: the longest prefix of `s` that
      does not end with whitespace. */
  function TrimEnd(s: string): (r: string)
    ensures |r| <= |s|
  {
    if s != [] && IsWhitespace(s[|s| - 1]) then TrimEnd(s[..|s| - 1]) else s
  }

  /** TrimStart cuts a whitespace prefix and stops at the first visible
      character. */
  lemma {:induction false} TrimStartSpec(s: string)
    ensures var r := TrimStart(s);
      && r == s[|s| - |r|..]
      && AllWhitespace(s[..|s| - |r|])
      && (r == [] || !IsWhitespace(r[0]))
  {
    if s != [] && IsWhitespace(s[0]) {
      TrimStartSpec(s[1..]);
      var r := TrimStart(s);
      assert s[1..][|s| - 1 - |r|..] == s[|s| - |r|..];
      forall i | 0 <= i < |s| - |r| ensures IsWhitespace(s[i]) {
        if i > 0 { assert s[i] == s[1..][..|s| - 1 - |r|][i - 1]; }
      }
    }
  }

  /** TrimEnd cuts a whitespace suffix and stops at the last visible
      character. */
  lemma {:induction false} TrimEndSpec(s: string)
    ensures var r := TrimEnd(s);
      && r == s[..|r|]
      && AllWhitespace(s[|r|..])
      && (r == [] || !IsWhitespace(r[|r| - 1]))
  {
    if s != [] && IsWhitespace(s[|s| - 1]) {
      var s' := s[..|s| - 1];
      TrimEndSpec(s');
      var r := TrimEnd(s);
      assert s'[..|r|] == s[..|r|];
      forall i | |r| <= i < |s| ensures IsWhitespace(s[i]) {
        if i < |s| - 1 { assert s[i] == s'[|r|..][i - |r|]; }
      }
    }
  }

  /** `s.trim()`. */
  function Trim(s: string): string {
    TrimEnd(TrimStart(s))
  }

  lemma {:induction false} VisibleAppend(a: string, b: string)
    ensures Visible(a + b) == Visible(a) + Visible(b)
  {
    if a == [] {
      assert a + b == b;
    } else {
      assert (a + b)[0] == a[0];
      assert (a + b)[1..] == a[1..] + b;
      VisibleAppend(a[1..], b);
    }
  }

  lemma {:induction false} VisibleOfWhitespace(s: string)
    requires AllWhitespace(s)
    ensures Visible(s) == []
  {
    if s != [] {
      VisibleOfWhitespace(s[1..]);
    }
  }

  lemma {:induction false} VisibleOfWord(s: string)
    requires NoWhitespace(s)
    ensures Visible(s) == s
  {
    if s != [] {
      VisibleOfWord(s[1..]);
    }
  }

  /** A string has no visible characters exactly when it is all whitespace. */
  lemma {:induction false} VisibleEmptyIff(s: string)
    ensures Visible(s) == [] <==> AllWhitespace(s)
  {
    if s != [] {
      VisibleEmptyIff(s[1..]);
      if AllWhitespace(s[1..]) && IsWhitespace(s[0]) {
        assert AllWhitespace(s) by {
          forall i | 0 <= i < |s| ensures IsWhitespace(s[i]) {
            if i > 0 { assert s[i] == s[1..][i - 1]; }
          }
        }
      }
    }
  }

  /** `trim` removes whitespace only: the visible characters are kept. */
  lemma TrimKeepsVisible(s: string)
    ensures Visible(Trim(s)) == Visible(s)
  {
    var t := TrimStart(s);
    VisibleTrimStart(s);
    var u := TrimEnd(t);
    TrimEndSpec(t);
    assert t == u + t[|u|..];
    VisibleAppend(u, t[|u|..]);
    VisibleOfWhitespace(t[|u|..]);
  }

  /** `trim` cuts whitespace only: its result is the slice of `s` between
      a whitespace prefix and a whitespace suffix. */
  lemma TrimIsSlice(s: string)
    ensures var i, r := |s| - |TrimStart(s)|, Trim(s);
      && i + |r| <= |s| && r == s[i..i + |r|]
      && AllWhitespace(s[..i]) && AllWhitespace(s[i + |r|..])
  {
    var t := TrimStart(s);
    var r := TrimEnd(t);
    var i := |s| - |t|;
    TrimStartSpec(s);
    TrimEndSpec(t);
    assert r == s[i..i + |r|];
    assert s[i + |r|..] == t[|r|..];
  }

  /** `trim` leaves no whitespace at either end. */
  lemma TrimEnds(s: string)
    ensures var r := Trim(s);
      r == [] || (!IsWhitespace(r[0]) && !IsWhitespace(r[|r| - 1]))
  {
    var t := TrimStart(s);
    var r := TrimEnd(t);
    TrimStartSpec(s);
    TrimEndSpec(t);
    if r != [] {
      assert r[0] == t[0];
    }
  }

  /** `trim` yields the empty string exactly when `s` is all whitespace. */
  lemma TrimEmptyIff(s: string)
    ensures Trim(s) == [] <==> AllWhitespace(s)
  {
    TrimKeepsVisible(s);
    TrimEnds(s);
    VisibleEmptyIff(s);
    VisibleEmptyIff(Trim(s));
  }

  /** Trimming twice is trimming once. */
  lemma TrimIdempotent(s: string)
    ensures Trim(Trim(s)) == Trim(s)
  {
    var r := Trim(s);
    TrimStartSpec(s);
    TrimEndSpec(TrimStart(s));
    if r != [] {
      assert r[0] == TrimStart(s)[0];
      assert TrimStart(r) == r;
    }
  }

  // ---------------------------------------------------------------------
  // split(/\s+/) and filter(Boolean)

  /** The longest prefix of `s` without whitespace (possibly empty). */
  function LeadingWord(s: string): (w: string)
    ensures |w| <= |s|
    ensures |w| < |s| ==> IsWhitespace(s[|w|])
  {
    if s == [] || IsWhitespace(s[0]) then [] else [s[0]] + LeadingWord(s[1..])
  }

  lemma {:induction false} LeadingWordSpec(s: string)
    ensures var w := LeadingWord(s);
      w == s[..|w|] && NoWhitespace(w)
  {
    if s != [] && !IsWhitespace(s[0]) {
      LeadingWordSpec(s[1..]);
      var w := LeadingWord(s);
      assert w == [s[0]] + s[1..][..|w| - 1];
      assert s[..|w|] == [s[0]] + s[1..][..|w| - 1];
      forall i | 0 <= i < |w| ensures !IsWhitespace(w[i]) {
        if i > 0 { assert w[i] == LeadingWord(s[1..])[i - 1]; }
      }
    }
  }

  /** The fields of `s.split(/\s+/)`: every maximal run of whitespace is one
      separator, so a leading or trailing run yields an empty field and the
      empty string yields one empty field. */
  function SplitOnWhitespace(s: string): (fields: seq<string>)
    ensures |fields| >= 1
    decreases |s|
  {
    var w := LeadingWord(s);
    var rest := s[|w|..];
    if rest == [] then [w] else [w] + SplitOnWhitespace(TrimStart(rest))
  }

  /** `filter(Boolean)` on strings: the empty strings are dropped. */
  function DropEmpty(fields: seq<string>): seq<string> {
    if fields == [] then []
    else (if fields[0] == [] then [] else [fields[0]]) + DropEmpty(fields[1..])
  }

  /** The word list of a script (components/Teleprompter.tsx, line 12). */
  function Tokenize(script: string): seq<string> {
    DropEmpty(SplitOnWhitespace(script))
  }

  lemma {:induction false} DropEmptyKeepsWords(fields: seq<string>)
    ensures forall w :: w in DropEmpty(fields) ==> w in fields && w != []
  {
    if fields != [] {
      DropEmptyKeepsWords(fields[1..]);
    }
  }

  lemma {:induction false} DropEmptyAppend(a: seq<string>, b: seq<string>)
    ensures DropEmpty(a + b) == DropEmpty(a) + DropEmpty(b)
  {
    if a == [] {
      assert a + b == b;
    } else {
      assert (a + b)[0] == a[0];
      assert (a + b)[1..] == a[1..] + b;
      DropEmptyAppend(a[1..], b);
    }
  }

  lemma {:induction false} ConcatAppend(a: seq<string>, b: seq<string>)
    ensures Concat(a + b) == Concat(a) + Concat(b)
  {
    if a == [] {
      assert a + b == b;
    } else {
      assert (a + b)[0] == a[0];
      assert (a + b)[1..] == a[1..] + b;
      ConcatAppend(a[1..], b);
    }
  }

  lemma {:induction false} ConcatDropEmpty(fields: seq<string>)
    ensures Concat(DropEmpty(fields)) == Concat(fields)
  {
    if fields != [] {
      var head := if fields[0] == [] then [] else [fields[0]];
      ConcatDropEmpty(fields[1..]);
      ConcatAppend(head, DropEmpty(fields[1..]));
      assert Concat(head) == fields[0] by {
        if head != [] { assert head[1..] == []; }
      }
    }
  }

  lemma {:induction false} FieldsHaveNoWhitespace(s: string)
    ensures forall w :: w in SplitOnWhitespace(s) ==> NoWhitespace(w)
    decreases |s|
  {
    var w := LeadingWord(s);
    var rest := s[|w|..];
    LeadingWordSpec(s);
    if rest != [] {
      FieldsHaveNoWhitespace(TrimStart(rest));
    }
  }

  lemma VisibleTrimStart(s: string)
    ensures Visible(TrimStart(s)) == Visible(s)
  {
    var t := TrimStart(s);
    var n := |s| - |t|;
    TrimStartSpec(s);
    assert s == s[..n] + t;
    VisibleAppend(s[..n], t);
    VisibleOfWhitespace(s[..n]);
  }

  lemma VisibleLeadingWord(s: string)
    ensures Visible(s) == LeadingWord(s) + Visible(s[|LeadingWord(s)|..])
  {
    var w := LeadingWord(s);
    LeadingWordSpec(s);
    assert s == w + s[|w|..];
    VisibleAppend(w, s[|w|..]);
    VisibleOfWord(w);
  }

  lemma {:induction false} ConcatFields(s: string)
    ensures Concat(SplitOnWhitespace(s)) == Visible(s)
    decreases |s|
  {
    var w := LeadingWord(s);
    var rest := s[|w|..];
    VisibleLeadingWord(s);
    if rest == [] {
      assert Concat([w]) == w + Concat([]);
    } else {
      var t := TrimStart(rest);
      ConcatFields(t);
      VisibleTrimStart(rest);
      var fields := [w] + SplitOnWhitespace(t);
      assert fields[1..] == SplitOnWhitespace(t);
      assert Concat(fields) == w + Concat(SplitOnWhitespace(t));
    }
  }

  lemma {:induction false} ConcatOfWordsEmpty(words: seq<string>)
    requires forall w :: w in words ==> w != []
    ensures Concat(words) == [] <==> words == []
  {
    if words != [] {
      assert words[0] in words;
    }
  }

  /** Every token is a non-empty run of non-whitespace characters. */
  lemma TokensAreWords(script: string)
    ensures forall w :: w in Tokenize(script) ==> w != [] && NoWhitespace(w)
  {
    FieldsHaveNoWhitespace(script);
    DropEmptyKeepsWords(SplitOnWhitespace(script));
  }

  /** The tokens, read in order, spell exactly the visible characters of the
      script: nothing is lost, added or reordered. */
  lemma TokensSpellScript(script: string)
    ensures Concat(Tokenize(script)) == Visible(script)
  {
    ConcatDropEmpty(SplitOnWhitespace(script));
    ConcatFields(script);
  }

  /** A script has no words exactly when it is empty or whitespace only. */
  lemma TokenizeEmptyIff(script: string)
    ensures Tokenize(script) == [] <==> AllWhitespace(script)
  {
    TokensSpellScript(script);
    DropEmptyKeepsWords(SplitOnWhitespace(script));
    ConcatOfWordsEmpty(Tokenize(script));
    VisibleEmptyIff(script);
  }

  /** A single word tokenizes to itself. */
  lemma TokenizeWord(w: string)
    requires w != [] && NoWhitespace(w)
    ensures Tokenize(w) == [w]
  {
    LeadingWordOfWord(w);
    TokenizeUnfold(w);
    assert [w][1..] == [];
    assert DropEmpty([w]) == [w] + DropEmpty([]);
  }

  lemma {:induction false} LeadingWordOfWord(w: string)
    requires NoWhitespace(w)
    ensures LeadingWord(w) == w
  {
    if w != [] {
      LeadingWordOfWord(w[1..]);
    }
  }

  /** Leading whitespace yields only an empty field, which is dropped. */
  lemma TokenizeTrimStart(s: string)
    ensures Tokenize(TrimStart(s)) == Tokenize(s)
  {
    if s != [] && IsWhitespace(s[0]) {
      assert LeadingWord(s) == [];
      assert SplitOnWhitespace(s) == [[]] + SplitOnWhitespace(TrimStart(s));
      DropEmptyAppend([[]], SplitOnWhitespace(TrimStart(s)));
    }
  }

  lemma {:induction false} LeadingWordAppend(a: string, x: string)
    requires |LeadingWord(a)| < |a| || x == [] || IsWhitespace(x[0])
    ensures LeadingWord(a + x) == LeadingWord(a)
  {
    if a != [] && !IsWhitespace(a[0]) {
      assert (a + x)[1..] == a[1..] + x;
      LeadingWordAppend(a[1..], x);
    }
  }

  lemma {:induction false} TrimStartAfterWhitespace(a: string, x: string)
    requires AllWhitespace(a)
    ensures TrimStart(a + x) == TrimStart(x)
  {
    if a == [] {
      assert a + x == x;
    } else {
      assert (a + x)[0] == a[0];
      assert (a + x)[1..] == a[1..] + x;
      assert AllWhitespace(a[1..]) by {
        forall i | 0 <= i < |a| - 1 ensures IsWhitespace(a[1..][i]) {
          assert a[1..][i] == a[i + 1];
        }
      }
      TrimStartAfterWhitespace(a[1..], x);
    }
  }

  lemma {:induction false} TrimStartBeforeVisible(a: string, x: string)
    requires !AllWhitespace(a)
    ensures TrimStart(a + x) == TrimStart(a) + x
  {
    assert a != [];
    assert (a + x)[0] == a[0];
    if IsWhitespace(a[0]) {
      assert (a + x)[1..] == a[1..] + x;
      assert !AllWhitespace(a[1..]) by {
        var i :| 0 <= i < |a| && !IsWhitespace(a[i]);
        assert i > 0;
        assert a[1..][i - 1] == a[i];
      }
      TrimStartBeforeVisible(a[1..], x);
    }
  }

  /** Tokenizing distributes over a whitespace separator: the words of
      `a`, a whitespace character, then `b` are the words of `a` followed by
      the words of `b`. With TokenizeWord and TokenizeEmptyIff this
      determines the tokenizer completely. */
  lemma {:induction false} TokenizeSeparated(a: string, c: char, b: string)
    requires IsWhitespace(c)
    ensures Tokenize(a + [c] + b) == Tokenize(a) + Tokenize(b)
    decreases |a|
  {
    var w := LeadingWord(a);
    var r := a[|w|..];
    if AllWhitespace(r) {
      TokenizeSeparatedLastWord(a, c, b);
    } else {
      var head := DropEmpty([w]);
      var a' := TrimStart(r);
      var tail := Tokenize(TrimStart(r + [c] + b));
      assert Tokenize(a + [c] + b) == head + tail by {
        TokenizeAfterLeadingWord(a, c, b);
      }
      assert Tokenize(a) == head + Tokenize(a') by {
        TokenizeUnfold(a);
      }
      assert |a'| < |a| by {
        assert IsWhitespace(r[0]);
      }
      TrimStartBeforeSeparator(r, c, b);
      TokenizeSeparated(a', c, b);
      assert head + tail == (head + Tokenize(a')) + Tokenize(b);
    }
  }

  lemma TrimStartBeforeSeparator(r: string, c: char, b: string)
    requires !AllWhitespace(r)
    ensures Tokenize(TrimStart(r + [c] + b)) == Tokenize(TrimStart(r) + [c] + b)
  {
    TrimStartBeforeVisible(r, [c] + b);
    assert r + ([c] + b) == r + [c] + b;
    assert TrimStart(r) + ([c] + b) == TrimStart(r) + [c] + b;
  }

  /** The base case of TokenizeSeparated: `a` holds at most one word. */
  lemma TokenizeSeparatedLastWord(a: string, c: char, b: string)
    requires IsWhitespace(c) && AllWhitespace(a[|LeadingWord(a)|..])
    ensures Tokenize(a + [c] + b) == Tokenize(a) + Tokenize(b)
  {
    var w := LeadingWord(a);
    var r := a[|w|..];
    var head := DropEmpty([w]);
    var tail := Tokenize(TrimStart(r + [c] + b));
    assert Tokenize(a + [c] + b) == head + tail by {
      TokenizeAfterLeadingWord(a, c, b);
    }
    assert tail == Tokenize(b) by {
      TokenizeSeparatorRun(r, c, b);
    }
    assert Tokenize(a) == head by {
      TokenizeUnfold(a);
      if r != [] {
        TrimStartSpec(r);
        assert TrimStart(r) == [];
        TokenizeEmptyIff([]);
      }
    }
  }

  /** Past the leading word of `a`, the rest of `a + [c] + b` is tokenized. */
  lemma TokenizeAfterLeadingWord(a: string, c: char, b: string)
    requires IsWhitespace(c)
    ensures var w := LeadingWord(a);
      Tokenize(a + [c] + b) == DropEmpty([w]) + Tokenize(TrimStart(a[|w|..] + [c] + b))
  {
    var cb := [c] + b;
    var s := a + cb;
    assert a + [c] + b == s;
    var w := LeadingWord(a);
    LeadingWordAppend(a, cb);
    assert s[|w|..] == a[|w|..] + [c] + b;
    TokenizeUnfold(s);
  }

  /** A run of whitespace followed by `b` has the words of `b`. */
  lemma TokenizeSeparatorRun(r: string, c: char, b: string)
    requires AllWhitespace(r) && IsWhitespace(c)
    ensures Tokenize(TrimStart(r + [c] + b)) == Tokenize(b)
  {
    assert AllWhitespace(r + [c]);
    assert r + [c] + b == (r + [c]) + b;
    TrimStartAfterWhitespace(r + [c], b);
    TokenizeTrimStart(b);
  }

  lemma TokenizeUnfold(s: string)
    ensures var w := LeadingWord(s);
      Tokenize(s) == DropEmpty([w]) + (if |w| == |s| then [] else Tokenize(TrimStart(s[|w|..])))
  {
    var w := LeadingWord(s);
    if |w| < |s| {
      DropEmptyAppend([w], SplitOnWhitespace(TrimStart(s[|w|..])));
    } else {
      assert s[|w|..] == [];
      assert DropEmpty([w]) + [] == DropEmpty([w]);
    }
  }

  /** Trailing whitespace contributes no word. */
  lemma TokenizeTrimEnd(s: string)
    ensures Tokenize(TrimEnd(s)) == Tokenize(s)
  {
    var t := TrimEnd(s);
    TrimEndSpec(s);
    if |t| < |s| {
      var rest := s[|t| + 1..];
      assert s == t + [s[|t|]] + rest;
      TokenizeSeparated(t, s[|t|], rest);
      TokenizeEmptyIff(rest);
    }
  }

  /** Trimming a script does not change its words. */
  lemma TokenizeTrim(s: string)
    ensures Tokenize(Trim(s)) == Tokenize(s)
  {
    TokenizeTrimStart(s);
    TokenizeTrimEnd(TrimStart(s));
  }
}
