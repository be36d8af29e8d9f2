/**
 * The search phrase: the sequential `str.replace` that backslash-escapes the regular
 * expression symbols `[]\.^$*+{}|()`, and the part of Python's `re.search` that the
 * escaped phrase exercises, namely patterns that stand for one literal text.
 */
module Pattern {
  import opened Wrappers
  import opened Strings

  /** The symbols escaped, in the order the replacements run. */
  const Symbols: string := "[]\\.^$*+{}|()"

  /** `s.replace(from, to)` for a one-character `from`. */
  function Replace(s: string, from: char, to: string): (r: string)
    ensures from !in s ==> r == s
    ensures from !in to ==> from !in r
  {
    if |s| == 0 then "" else (if s[0] == from then to else [s[0]]) + Replace(s[1..], from, to)
  }

  lemma {:induction false} ReplaceAppend(a: string, b: string, from: char, to: string)
    ensures Replace(a + b, from, to) == Replace(a, from, to) + Replace(b, from, to)
  {
    if |a| == 0 {
      assert a + b == b;
    } else {
      assert (a + b)[1..] == a[1..] + b;
      ReplaceAppend(a[1..], b, from, to);
    }
  }

  /** The replacements from the `k`-th symbol on, applied to `s` in order. */
  function EscapeFrom(s: string, k: nat): string
    requires k <= |Symbols|
    decreases |Symbols| - k
  {
    if k == |Symbols| then s
    else EscapeFrom(Replace(s, Symbols[k], ['\\', Symbols[k]]), k + 1)
  }

  /** The phrase after all thirteen replacements. */
  function Escape(s: string): string
  {
    EscapeFrom(s, 0)
  }

  /**
   * What one character of the phrase turns into. A backslash inserted before `[` or `]`
   * is itself doubled by the later backslash replacement.
   */
  function EscapedChar(c: char): (r: string)
    ensures |r| > 0 && r[|r| - 1] == c
  {
    if c == '[' || c == ']' then ['\\', '\\', c]
    else if c == '\\' then ['\\', '\\']
    else if c in Symbols then ['\\', c]
    else [c]
  }

  /** The escaped phrase character by character. */
  function EscapeEach(s: string): string
  {
    if |s| == 0 then "" else EscapedChar(s[0]) + EscapeEach(s[1..])
  }

  lemma {:induction false} EscapeFromAppend(a: string, b: string, k: nat)
    requires k <= |Symbols|
    ensures EscapeFrom(a + b, k) == EscapeFrom(a, k) + EscapeFrom(b, k)
    decreases |Symbols| - k
  {
    if k < |Symbols| {
      var rep := ['\\', Symbols[k]];
      ReplaceAppend(a, b, Symbols[k], rep);
      EscapeFromAppend(Replace(a, Symbols[k], rep), Replace(b, Symbols[k], rep), k + 1);
    }
  }

  /** The replacements of symbols that do not occur in the text change nothing. */
  lemma {:induction false} EscapeFromSkip(s: string, k: nat, m: nat)
    requires k <= m <= |Symbols|
    requires forall j :: k <= j < m ==> Symbols[j] !in s
    ensures EscapeFrom(s, k) == EscapeFrom(s, m)
    decreases m - k
  {
    if k < m {
      EscapeFromSkip(s, k + 1, m);
    }
  }

  /** Text holding none of the symbols from the `k`-th on is left alone by those replacements. */
  lemma EscapeFromUntouched(s: string, k: nat)
    requires k <= |Symbols|
    requires forall j :: k <= j < |Symbols| ==> Symbols[j] !in s
    ensures EscapeFrom(s, k) == s
  {
    EscapeFromSkip(s, k, |Symbols|);
  }

  lemma ReplaceSingle(c: char, from: char, to: string)
    ensures Replace([c], from, to) == if c == from then to else [c]
  {
    assert [c][1..] == [];
  }

  lemma ReplacePair(a: char, b: char, from: char, to: string)
    ensures Replace([a, b], from, to) == Replace([a], from, to) + Replace([b], from, to)
  {
    ReplaceAppend([a], [b], from, to);
    assert [a] + [b] == [a, b];
  }

  /** A backslash before `c` followed by the backslash replacement: two backslashes before `c`. */
  lemma DoubleBackslash(c: char)
    requires c != '\\'
    ensures Replace(['\\', c], '\\', ['\\', '\\']) == ['\\', '\\', c]
  {
    ReplacePair('\\', c, '\\', ['\\', '\\']);
    ReplaceSingle('\\', '\\', ['\\', '\\']);
    ReplaceSingle(c, '\\', ['\\', '\\']);
  }

  /** The position of a symbol in the replacement order; 13 for every other character. */
  function SymbolIndex(c: char): (r: nat)
    ensures r <= |Symbols|
  {
    if c == '[' then 0 else if c == ']' then 1 else if c == '\\' then 2 else if c == '.' then 3
    else if c == '^' then 4 else if c == '$' then 5 else if c == '*' then 6 else if c == '+' then 7
    else if c == '{' then 8 else if c == '}' then 9 else if c == '|' then 10 else if c == '(' then 11
    else if c == ')' then 12 else 13
  }

  lemma SymbolIndexAt(j: nat)
    requires j < |Symbols|
    ensures SymbolIndex(Symbols[j]) == j
  {
    assert Symbols == ['[', ']', '\\', '.', '^', '$', '*', '+', '{', '}', '|', '(', ')'];
  }

  /** The replacements from the `k`-th to before the `m`-th leave a text alone when it holds none of their symbols. */
  lemma SkipText(t: string, k: nat, m: nat)
    requires k <= m <= |Symbols|
    requires forall i :: 0 <= i < |t| ==> !(k <= SymbolIndex(t[i]) < m)
    ensures EscapeFrom(t, k) == EscapeFrom(t, m)
  {
    forall j | k <= j < m ensures Symbols[j] !in t {
      SymbolIndexAt(j);
    }
    EscapeFromSkip(t, k, m);
  }

  /** One replacement step. */
  lemma EscapeFromStep(s: string, k: nat)
    requires k < |Symbols|
    ensures EscapeFrom(s, k) == EscapeFrom(Replace(s, Symbols[k], ['\\', Symbols[k]]), k + 1)
  {
  }

  /** `[` and `]` get a backslash, and then that backslash gets another one. */
  lemma EscapeBracket(c: char, k: nat)
    requires k <= 1 && Symbols[k] == c
    ensures Escape([c]) == ['\\', '\\', c]
  {
    var t := ['\\', '\\', c];
    BracketOwnStep(c, k);
    BracketBackslashStep(c, k);
    SymbolIndexAt(k);
    SkipText(t, k + 3 - k, |Symbols|);
  }

  lemma BracketOwnStep(c: char, k: nat)
    requires k <= 1 && Symbols[k] == c
    ensures Escape([c]) == EscapeFrom(['\\', c], k + 1)
  {
    SymbolIndexAt(k);
    SkipText([c], 0, k);
    EscapeFromStep([c], k);
    ReplaceSingle(c, c, ['\\', c]);
  }

  lemma BracketBackslashStep(c: char, k: nat)
    requires k <= 1 && Symbols[k] == c
    ensures EscapeFrom(['\\', c], k + 1) == EscapeFrom(['\\', '\\', c], k + 3 - k)
  {
    var two := k + 2 - k;
    SymbolIndexAt(k);
    SkipText(['\\', c], k + 1, two);
    EscapeFromStep(['\\', c], two);
    assert Symbols[two] == '\\';
    DoubleBackslash(c);
  }

  lemma EscapeBackslash(c: char, k: nat)
    requires k == 2 && Symbols[k] == c
    ensures Escape([c]) == [c, c]
  {
    SymbolIndexAt(k);
    SkipText([c], 0, k);
    EscapeFromStep([c], k);
    ReplaceSingle(c, c, [c, c]);
    SkipText([c, c], k + 1, |Symbols|);
  }

  lemma EscapeOtherSymbol(c: char, k: nat)
    requires 3 <= k < |Symbols| && Symbols[k] == c
    ensures Escape([c]) == ['\\', c]
  {
    SymbolIndexAt(k);
    SkipText([c], 0, k);
    EscapeFromStep([c], k);
    ReplaceSingle(c, c, ['\\', c]);
    SkipText(['\\', c], k + 1, |Symbols|);
  }

  lemma EscapeOneChar(c: char)
    ensures Escape([c]) == EscapedChar(c)
  {
    if c !in Symbols {
      EscapeFromUntouched([c], 0);
    } else if c == '[' {
      EscapeBracket(c, 0);
    } else if c == ']' {
      EscapeBracket(c, 1);
    } else if c == '\\' {
      EscapeBackslash(c, 2);
    } else {
      var k :| 3 <= k < |Symbols| && Symbols[k] == c;
      EscapeOtherSymbol(c, k);
    }
  }

  /** Escaping works character by character: each symbol gets its backslashes, nothing else changes. */
  lemma {:induction false} EscapeIsEach(s: string)
    ensures Escape(s) == EscapeEach(s)
  {
    if |s| == 0 {
      EscapeFromUntouched(s, 0);
    } else {
      assert s == [s[0]] + s[1..];
      EscapeFromAppend([s[0]], s[1..], 0);
      EscapeOneChar(s[0]);
      EscapeIsEach(s[1..]);
    }
  }

  // ------------------------------------------------------- literal patterns

  /** Characters that mean something other than themselves in a pattern (a lone `]` does not). */
  const Special: string := "[\\.^$*+?{}|()"

  /**
   * The text a pattern stands for, when it stands for one fixed text: ordinary characters
   * match themselves, a backslash before one of the symbols matches that symbol, and a lone
   * `]` matches itself. `None` for every other pattern.
   */
  function Literal(p: string): (r: Option<string>)
    ensures r.Some? ==> |r.value| <= |p|
  {
    if |p| == 0 then Some("")
    else if p[0] == '\\' then
      if |p| >= 2 && p[1] in Symbols then
        match Literal(p[2..])
        case None => None
        case Some(rest) => Some([p[1]] + rest)
      else None
    else if p[0] in Special then None
    else
      match Literal(p[1..])
      case None => None
      case Some(rest) => Some([p[0]] + rest)
  }

  /** Whether `re.search(p, text)` is modelled: `p` stands for one fixed text. */
  predicate Searchable(p: string)
  {
    Literal(p).Some?
  }

  /** `re.search(p, text) != None` for a pattern that stands for a fixed text: that text occurs. */
  predicate Search(p: string, text: string)
    requires Searchable(p)
  {
    Contains(text, Literal(p).value)
  }

  /** Phrases without `?`, `[` or `]` escape to a pattern for the phrase itself. */
  lemma {:induction false} LiteralOfEscape(s: string)
    requires '?' !in s && '[' !in s && ']' !in s
    ensures Literal(Escape(s)) == Some(s)
  {
    EscapeIsEach(s);
    LiteralOfEscapeEach(s);
  }

  lemma {:induction false} LiteralOfEscapeEach(s: string)
    requires '?' !in s && '[' !in s && ']' !in s
    ensures Literal(EscapeEach(s)) == Some(s)
  {
    if |s| > 0 {
      var c, rest := s[0], EscapeEach(s[1..]);
      LiteralOfEscapeEach(s[1..]);
      var e := EscapedChar(c) + rest;
      if c in Symbols {
        assert e[2..] == rest;
      } else {
        assert e[1..] == rest;
      }
      assert s == [c] + s[1..];
    }
  }

  /** An escaped `[` is a backslash followed by an unclosed character set: not a fixed text. */
  lemma OpenBracketNotLiteral(c: char)
    requires c == '['
    ensures Escape([c]) == ['\\', '\\', c] && Literal(Escape([c])) == None
  {
    EscapeOneChar(c);
    var p := ['\\', '\\', c];
    assert p[2..] == [c];
    assert c in Special;
  }

  /** An escaped `]` stands for the two characters `\]`, so the phrase `]` finds only `\]`. */
  lemma CloseBracketFindsBackslash(c: char)
    requires c == ']'
    ensures Escape([c]) == ['\\', '\\', c] && Literal(Escape([c])) == Some(['\\', c])
  {
    EscapeOneChar(c);
    var p := ['\\', '\\', c];
    var q := p[2..];
    assert q == [c] && q[1..] == [];
    assert Literal(q[1..]) == Some([]);
    assert c !in Special by {
      assert Special == ['[', '\\', '.', '^', '$', '*', '+', '?', '{', '}', '|', '(', ')'];
    }
    assert Literal(q) == Some([c]);
    assert p[1] in Symbols by {
      assert Symbols[2] == '\\';
    }
    assert Literal(p) == Some([p[1]] + [c]);
    assert [p[1]] + [c] == ['\\', c];
  }

  // ---------------------------------------------------------- case folding

  lemma {:induction false} LowerEscapeEach(s: string)
    ensures Lower(EscapeEach(s)) == EscapeEach(Lower(s))
  {
    if |s| > 0 {
      LowerEscapeEach(s[1..]);
      LowerAppend(EscapedChar(s[0]), EscapeEach(s[1..]));
      assert Lower(s)[1..] == Lower(s[1..]);
      LowerEscapedChar(s[0]);
    }
  }

  /** Lower-casing commutes with escaping one character: no symbol is a letter. */
  lemma LowerEscapedChar(c: char)
    ensures Lower(EscapedChar(c)) == EscapedChar(LowerChar(c))
  {
    if c in Symbols {
      assert LowerChar(c) == c by {
        SymbolIndexAt(SymbolIndex(c));
      }
    } else {
      assert LowerChar(c) !in Symbols;
    }
  }

  /**
   * The lower-cased escaped phrase searches for the lower-cased phrase: the case-insensitive
   * filter finds a name exactly when the lower-cased phrase occurs in the lower-cased name.
   */
  lemma SearchEscaped(phrase: string, name: string)
    requires '?' !in phrase && '[' !in phrase && ']' !in phrase
    ensures Searchable(Lower(Escape(phrase)))
    ensures Search(Lower(Escape(phrase)), Lower(name)) <==> Contains(Lower(name), Lower(phrase))
  {
    EscapeIsEach(phrase);
    EscapeIsEach(Lower(phrase));
    LowerEscapeEach(phrase);
    forall i | 0 <= i < |phrase| ensures Lower(phrase)[i] != '?' && Lower(phrase)[i] != '[' && Lower(phrase)[i] != ']' {
      assert phrase[i] in phrase;
    }
    LiteralOfEscape(Lower(phrase));
  }

  /** The empty phrase finds every name. */
  lemma EmptyPhraseFindsAll(name: string)
    ensures Searchable(Lower(Escape(""))) && Search(Lower(Escape("")), name)
  {
    LiteralOfEscape("");
    assert Lower("") == "";
    assert OccursAt(name, "", 0);
  }
}
