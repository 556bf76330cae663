/** The text operations of `SimplePDF`: the JavaScript string primitives it
    relies on (`trim`, `split`, `replace` with a global pattern, `join`),
    the escaping of literal strings, the greedy word wrap and the content
    stream that `formatTextStream` builds from a title and a body text. */
module PdfText {
  import opened Common

  /** The characters `String.prototype.trim` removes: the WhiteSpace and
      LineTerminator code points of ECMAScript (sections 12.2 and 12.3 of
      ECMA-262). */
  predicate IsSpace(c: char)
  {
    c == '\t' || c == '\n' || c == '\U{000B}' || c == '\U{000C}' || c == '\r' || c == ' '
    || c == '\U{00A0}' || c == '\U{1680}' || ('\U{2000}' <= c <= '\U{200A}')
    || c == '\U{2028}' || c == '\U{2029}' || c == '\U{202F}' || c == '\U{205F}'
    || c == '\U{3000}' || c == '\U{FEFF}'
  }

  /** s without its leading white space: a suffix of s. */
  function TrimStart(s: string): (r: string)
    ensures |r| <= |s| && r == s[|s| - |r|..]
    ensures forall k :: 0 <= k < |s| - |r| ==> IsSpace(s[k])
    ensures r != [] ==> !IsSpace(r[0])
    decreases |s|
  {
    if s != [] && IsSpace(s[0]) then TrimStart(s[1..]) else s
  }

  /** s without its trailing white space: a prefix of s. */
  function TrimEnd(s: string): (r: string)
    ensures |r| <= |s| && r == s[..|r|]
    ensures forall k :: |r| <= k < |s| ==> IsSpace(s[k])
    ensures r != [] ==> !IsSpace(r[|r| - 1])
    decreases |s|
  {
    if s != [] && IsSpace(s[|s| - 1]) then TrimEnd(s[..|s| - 1]) else s
  }

  /** `s.trim()`: neither end of the result is white space. */
  function Trim(s: string): (r: string)
    ensures r == [] || (!IsSpace(r[0]) && !IsSpace(r[|r| - 1]))
  {
    TrimEnd(TrimStart(s))
  }

  /** Trimming cuts white space, and only white space, off both ends. */
  lemma TrimSlice(s: string)
    ensures exists i, j ::
      (0 <= i <= j <= |s| && Trim(s) == s[i..j]
       && (forall k :: 0 <= k < i ==> IsSpace(s[k]))
       && (forall k :: j <= k < |s| ==> IsSpace(s[k])))
  {
    var t := TrimStart(s);
    var i := |s| - |t|;
    var j := i + |Trim(s)|;
    PrefixOfSuffix(s, i, TrimEnd(t));
    TrailingSpace(s, t, i, |Trim(s)|);
  }

  /** A prefix of the suffix of s from i is a slice of s from i. */
  lemma PrefixOfSuffix<T>(s: seq<T>, i: nat, r: seq<T>)
    requires i <= |s| && |r| <= |s| - i && r == s[i..][..|r|]
    ensures r == s[i..i + |r|]
  {
    SliceOfSlice(s, i, |s|, 0, |r|);
  }

  /** Trailing white space of a suffix is trailing white space of the whole. */
  lemma TrailingSpace(s: string, t: string, i: nat, n: nat)
    requires i <= |s| && t == s[i..] && n <= |t|
    requires forall k :: n <= k < |t| ==> IsSpace(t[k])
    ensures forall k :: i + n <= k < |s| ==> IsSpace(s[k])
  {
    forall k | i + n <= k < |s|
      ensures IsSpace(s[k])
    {
      assert s[k] == t[k - i];
    }
  }

  /** `!line.trim()` holds exactly of the lines made of white space alone. */
  lemma TrimBlank(s: string)
    ensures Trim(s) == [] <==> forall k :: 0 <= k < |s| ==> IsSpace(s[k])
  {
    var t := TrimStart(s);
    if Trim(s) == [] {
      assert t == [] by {
        assert |t| == 0 || IsSpace(t[0]);
      }
    } else {
      assert t != [];
      assert !IsSpace(s[|s| - |t|]);
    }
  }

  /** `s.split(d)` for a one-character separator: the pieces between the
      occurrences of d, at least one, none containing d. */
  function Split(s: string, d: char): (r: seq<string>)
    ensures |r| >= 1
    ensures forall k :: 0 <= k < |r| ==> d !in r[k]
    decreases |s|
  {
    if s == [] then [[]]
    else
      var rest := Split(s[1..], d);
      if s[0] == d then [[]] + rest
      else [[s[0]] + rest[0]] + rest[1..]
  }

  /** `parts.join(sep)`. */
  function Join(parts: seq<string>, sep: string): string
  {
    if parts == [] then []
    else if |parts| == 1 then parts[0]
    else parts[0] + sep + Join(parts[1..], sep)
  }

  /** `s.replace(/c/g, rep)` for a one-character pattern: every occurrence of c
      is replaced by `rep`. */
  function ReplaceAll(s: string, c: char, rep: string): (r: string)
    ensures c !in rep ==> c !in r
  {
    if s == [] then [] else (if s[0] == c then rep else [s[0]]) + ReplaceAll(s[1..], c, rep)
  }

  lemma JoinFront(x: char, p: string, ps: seq<string>, sep: string)
    ensures Join([[x] + p] + ps, sep) == [x] + Join([p] + ps, sep)
  {
    if ps != [] {
      assert ([[x] + p] + ps)[1..] == ps;
      assert ([p] + ps)[1..] == ps;
    }
  }

  /** Replacing every c by `rep` is splitting at c and joining with `rep`. */
  lemma {:induction false} ReplaceAllIsSplitJoin(s: string, c: char, rep: string)
    ensures ReplaceAll(s, c, rep) == Join(Split(s, c), rep)
    decreases |s|
  {
    if s != [] {
      var rest := Split(s[1..], c);
      ReplaceAllIsSplitJoin(s[1..], c, rep);
      if s[0] == c {
        assert ([[]] + rest)[1..] == rest;
      } else {
        JoinFront(s[0], rest[0], rest[1..], rep);
        assert [rest[0]] + rest[1..] == rest;
      }
    }
  }

  /** Replacing c by itself changes nothing. */
  lemma {:induction false} ReplaceAllIdentity(s: string, c: char)
    ensures ReplaceAll(s, c, [c]) == s
    decreases |s|
  {
    if s != [] {
      ReplaceAllIdentity(s[1..], c);
      assert s == [s[0]] + s[1..];
    }
  }

  /** Joining the pieces of a split with the separator gives the string back. */
  lemma SplitJoin(s: string, d: char)
    ensures Join(Split(s, d), [d]) == s
  {
    ReplaceAllIsSplitJoin(s, d, [d]);
    ReplaceAllIdentity(s, d);
  }

  /** Splitting a string whose first piece a has no separator in it. */
  lemma {:induction false} SplitPrefix(a: string, t: string, d: char)
    requires d !in a
    ensures Split(a + t, d) == [a + Split(t, d)[0]] + Split(t, d)[1..]
    decreases |a|
  {
    if a != [] {
      SplitPrefix(a[1..], t, d);
      assert (a + t)[1..] == a[1..] + t;
      assert (a + t)[0] == a[0];
      assert [a[0]] + (a[1..] + Split(t, d)[0]) == a + Split(t, d)[0];
    } else {
      assert a + t == t;
      assert a + Split(t, d)[0] == Split(t, d)[0];
      assert [Split(t, d)[0]] + Split(t, d)[1..] == Split(t, d);
    }
  }

  /** Splitting the join of pieces free of the separator gives the pieces back. */
  lemma {:induction false} JoinSplit(parts: seq<string>, d: char)
    requires |parts| >= 1
    requires forall k :: 0 <= k < |parts| ==> d !in parts[k]
    ensures Split(Join(parts, [d]), d) == parts
    decreases |parts|
  {
    if |parts| == 1 {
      SplitPrefix(parts[0], [], d);
      assert parts[0] + [] == parts[0];
    } else {
      var tail := Join(parts[1..], [d]);
      JoinSplit(parts[1..], d);
      assert Join(parts, [d]) == parts[0] + ([d] + tail);
      SplitPrefix(parts[0], [d] + tail, d);
      assert ([d] + tail)[1..] == tail;
      assert Split([d] + tail, d) == [[]] + parts[1..];
      assert parts[0] + [] == parts[0];
      assert [parts[0]] + parts[1..] == parts;
    }
  }

  lemma {:induction false} ReplaceAllConcat(a: string, b: string, c: char, rep: string)
    ensures ReplaceAll(a + b, c, rep) == ReplaceAll(a, c, rep) + ReplaceAll(b, c, rep)
    decreases |a|
  {
    if a == [] {
      assert a + b == b;
    } else {
      ReplaceAllConcat(a[1..], b, c, rep);
      assert (a + b)[0] == a[0] && (a + b)[1..] == a[1..] + b;
      var x := if a[0] == c then rep else [a[0]];
      assert ReplaceAll(a, c, rep) == x + ReplaceAll(a[1..], c, rep);
      assert x + (ReplaceAll(a[1..], c, rep) + ReplaceAll(b, c, rep))
          == (x + ReplaceAll(a[1..], c, rep)) + ReplaceAll(b, c, rep);
    }
  }

  /** `escape`: backslashes are doubled first, then both parentheses get a
      backslash, as the three chained global replacements do. */
  function Escape(s: string): string
  {
    ReplaceAll(ReplaceAll(ReplaceAll(s, '\\', "\\\\"), '(', "\\("), ')', "\\)")
  }

  /** What `escape` turns one character into. */
  function EscapeChar(c: char): string
  {
    if c == '\\' then "\\\\" else if c == '(' then "\\(" else if c == ')' then "\\)" else [c]
  }

  /** Escaping character by character. */
  function EscapeEach(s: string): string
  {
    if s == [] then [] else EscapeChar(s[0]) + EscapeEach(s[1..])
  }

  lemma EscapeConcat(a: string, b: string)
    ensures Escape(a + b) == Escape(a) + Escape(b)
  {
    var a1, b1 := ReplaceAll(a, '\\', "\\\\"), ReplaceAll(b, '\\', "\\\\");
    var a2, b2 := ReplaceAll(a1, '(', "\\("), ReplaceAll(b1, '(', "\\(");
    ReplaceAllConcat(a, b, '\\', "\\\\");
    ReplaceAllConcat(a1, b1, '(', "\\(");
    ReplaceAllConcat(a2, b2, ')', "\\)");
  }

  lemma EscapeOne(c: char)
    ensures Escape([c]) == EscapeChar(c)
  {
    assert [c][1..] == [];
    if c == '\\' {
      assert ReplaceAll([c], '\\', "\\\\") == "\\\\";
      assert "\\\\"[1..] == "\\";
      assert ReplaceAll("\\\\", '(', "\\(") == "\\\\";
      assert ReplaceAll("\\\\", ')', "\\)") == "\\\\";
    } else if c == '(' {
      assert ReplaceAll([c], '\\', "\\\\") == "(";
      assert ReplaceAll("(", '(', "\\(") == "\\(";
      assert "\\("[1..] == "(";
      assert ReplaceAll("\\(", ')', "\\)") == "\\(";
    } else if c == ')' {
      assert ReplaceAll([c], '\\', "\\\\") == ")";
      assert ReplaceAll(")", '(', "\\(") == ")";
      assert ReplaceAll(")", ')', "\\)") == "\\)";
    } else {
      assert ReplaceAll([c], '\\', "\\\\") == [c];
      assert ReplaceAll([c], '(', "\\(") == [c];
    }
  }

  /** The chained replacements escape each character on its own: the later
      replacements never touch the backslashes the earlier ones inserted in
      a way that changes their meaning. */
  lemma {:induction false} EscapeIsPerChar(s: string)
    ensures Escape(s) == EscapeEach(s)
    decreases |s|
  {
    if s != [] {
      assert s == [s[0]] + s[1..];
      EscapeConcat([s[0]], s[1..]);
      EscapeOne(s[0]);
      EscapeIsPerChar(s[1..]);
    }
  }

  /** How many characters of s `escape` rewrites. */
  function Specials(s: string): nat
  {
    if s == [] then 0 else (if s[0] in "\\()" then 1 else 0) + Specials(s[1..])
  }

  /** Escaping adds one backslash per backslash and parenthesis. */
  lemma {:induction false} EscapeLength(s: string)
    ensures |Escape(s)| == |s| + Specials(s)
  {
    EscapeIsPerChar(s);
    EscapeEachLength(s);
  }

  lemma {:induction false} EscapeEachLength(s: string)
    ensures |EscapeEach(s)| == |s| + Specials(s)
    decreases |s|
  {
    if s != [] {
      EscapeEachLength(s[1..]);
    }
  }

  /** A reader of a PDF literal string (section 7.3.4.2 of ISO 32000-1),
      started after the opening parenthesis: `\\`, `\(` and `\)` stand for the
      character after the backslash, an unescaped `)` closes the string.
      It yields the string and the text after the closing parenthesis; it
      refuses a string that ends early, an unescaped `(` (nesting) and the
      other backslash sequences, none of which `escape` produces. */
  function ReadLiteral(t: string): Option<(string, string)>
    decreases |t|
  {
    if t == [] then None
    else if t[0] == ')' then Some(([], t[1..]))
    else if t[0] == '(' then None
    else if t[0] == '\\' then
      if |t| < 2 || !(t[1] == '\\' || t[1] == '(' || t[1] == ')') then None
      else match ReadLiteral(t[2..]) {
        case None => None
        case Some(r) => Some(([t[1]] + r.0, r.1))
      }
    else match ReadLiteral(t[1..]) {
      case None => None
      case Some(r) => Some(([t[0]] + r.0, r.1))
    }
  }

  lemma {:induction false} ReadEscaped(s: string, rest: string)
    ensures ReadLiteral(EscapeEach(s) + ")" + rest) == Some((s, rest))
    decreases |s|
  {
    var t := EscapeEach(s) + ")" + rest;
    if s == [] {
      assert t == ")" + rest;
      assert t[1..] == rest;
    } else {
      var u := EscapeEach(s[1..]) + ")" + rest;
      ReadEscaped(s[1..], rest);
      assert t == EscapeChar(s[0]) + u;
      if s[0] == '\\' || s[0] == '(' || s[0] == ')' {
        assert t[0] == '\\' && t[1] == s[0];
        assert t[2..] == u;
      } else {
        assert t[0] == s[0];
        assert t[1..] == u;
      }
      assert [s[0]] + s[1..] == s;
    }
  }

  /** `(${escape(s)}) Tj`: the operator that shows s. */
  function ShowText(s: string): string
  {
    "(" + Escape(s) + ") Tj"
  }

  /** A PDF reader recovers exactly the string that was shown: whatever the
      string holds, the escaped literal closes at the parenthesis `escape`
      left unescaped, and the operator follows it. */
  lemma ShowReadsBack(s: string)
    ensures ShowText(s)[0] == '('
    ensures ReadLiteral(ShowText(s)[1..]) == Some((s, " Tj"))
  {
    EscapeIsPerChar(s);
    ReadEscaped(s, " Tj");
    assert ShowText(s)[1..] == EscapeEach(s) + ")" + " Tj";
  }

  /** Words that fit on a line of the wrap are at most this long, counted
      without their trailing space (`(currentLine + word).length > 85`). */
  const LineWidth: nat := 85

  /** The words of a group, each followed by one space: `currentLine`. */
  function Spaced(ws: seq<string>): (r: string)
    ensures |r| >= |ws|
  {
    if ws == [] then [] else Spaced(ws[..|ws| - 1]) + ws[|ws| - 1] + " "
  }

  lemma SpacedAppend(ws: seq<string>, w: string)
    ensures Spaced(ws + [w]) == Spaced(ws) + w + " "
  {
    assert (ws + [w])[..|ws|] == ws;
  }

  /** The state of the word wrap: the groups of words already shown, and the
      group of words on the current line. */
  datatype Wrapped = Wrapped(done: seq<seq<string>>, current: seq<string>)

  /** One word of the wrap: a word that would push the current line past
      the width starts a new line, after the current line is shown. */
  function WrapStep(w: Wrapped, word: string): Wrapped
  {
    if |Spaced(w.current) + word| > LineWidth then Wrapped(w.done + [w.current], [word])
    else Wrapped(w.done, w.current + [word])
  }

  /** The wrap of a line's words, one word after another. */
  function Wrap(words: seq<string>): (w: Wrapped)
    ensures words != [] ==> w.current != []
  {
    if words == [] then Wrapped([], []) else WrapStep(Wrap(words[..|words| - 1]), words[|words| - 1])
  }

  /** The groups the wrap ends with, the current line last. */
  function Groups(w: Wrapped): seq<seq<string>>
  {
    w.done + [w.current]
  }

  /** The groups hold all the words of the line, in order. */
  lemma {:induction false} WrapKeepsWords(words: seq<string>)
    ensures Flatten(Groups(Wrap(words))) == words
    decreases |words|
  {
    if words != [] {
      var ws := words[..|words| - 1];
      var word := words[|words| - 1];
      var w := Wrap(ws);
      WrapKeepsWords(ws);
      assert words == ws + [word];
      FlattenAppend(w.done, w.current);
      if |Spaced(w.current) + word| > LineWidth {
        assert Groups(Wrap(words)) == Groups(w) + [[word]];
        FlattenAppend(Groups(w), [word]);
      } else {
        assert Groups(Wrap(words)) == w.done + [w.current + [word]];
        FlattenAppend(w.done, w.current + [word]);
      }
    }
  }

  /** Every group but the first holds a word, and the first is empty only
      when the first word alone is wider than the line (the wrap then shows
      an empty string first). */
  lemma {:induction false} WrapGroupsNonEmpty(words: seq<string>)
    ensures forall k :: 0 < k < |Groups(Wrap(words))| ==> Groups(Wrap(words))[k] != []
    ensures (Wrap(words).done != [] && Wrap(words).done[0] == []) <==> (words != [] && |words[0]| > LineWidth)
    decreases |words|
  {
    if words != [] {
      var ws := words[..|words| - 1];
      var word := words[|words| - 1];
      var w := Wrap(ws);
      WrapGroupsNonEmpty(ws);
      var g, g' := Groups(w), Groups(Wrap(words));
      if |Spaced(w.current) + word| > LineWidth {
        assert g' == g + [[word]];
        forall k | 0 < k < |g'|
          ensures g'[k] != []
        {
          if k < |g| {
            assert g'[k] == g[k];
          }
        }
      } else {
        assert g' == w.done + [w.current + [word]];
        forall k | 0 < k < |g'|
          ensures g'[k] != []
        {
          if k < |w.done| {
            assert g'[k] == g[k];
          }
        }
      }
      if ws == [] {
        assert w.done == [] && w.current == [];
      } else {
        assert ws[0] == words[0];
      }
    }
  }

  /** A group is at most one character (its trailing space) wider than the
      line, unless it is a single word. */
  predicate Narrow(group: seq<string>)
  {
    |Spaced(group)| <= LineWidth + 1 || |group| == 1
  }

  predicate AllNarrow(groups: seq<seq<string>>)
  {
    forall k :: 0 <= k < |groups| ==> Narrow(groups[k])
  }

  lemma AllNarrowAppend(groups: seq<seq<string>>, g: seq<string>)
    requires AllNarrow(groups) && Narrow(g)
    ensures AllNarrow(groups + [g])
  {
    assert forall k :: 0 <= k < |groups| ==> (groups + [g])[k] == groups[k];
  }

  /** Every group of the wrap is narrow. */
  lemma {:induction false} WrapWidth(words: seq<string>)
    ensures AllNarrow(Groups(Wrap(words)))
    decreases |words|
  {
    if words != [] {
      var ws := words[..|words| - 1];
      var word := words[|words| - 1];
      var w := Wrap(ws);
      WrapWidth(ws);
      if |Spaced(w.current) + word| <= LineWidth {
        SpacedAppend(w.current, word);
        assert Groups(Wrap(words)) == w.done + [w.current + [word]];
        assert AllNarrow(w.done) by {
          assert forall k :: 0 <= k < |w.done| ==> Groups(w)[k] == w.done[k];
        }
        AllNarrowAppend(w.done, w.current + [word]);
      } else {
        assert Groups(Wrap(words)) == Groups(w) + [[word]];
        AllNarrowAppend(Groups(w), [word]);
      }
    }
  }

  /** Trimming a string that ends in a space makes it shorter. */
  lemma TrimDropsTrailingSpace(s: string)
    requires s != [] && s[|s| - 1] == ' '
    ensures |Trim(s)| < |s|
  {
    var t := TrimStart(s);
    if t != [] {
      var last := t[|t| - 1];
      assert last == s[|s| - 1] == ' ';
      assert IsSpace(last);
      assert TrimEnd(t) == TrimEnd(t[..|t| - 1]);
    }
  }

  /** The text shown for a group, trimmed as `currentLine.trim()` is, is at
      most 85 characters long unless the group is a single word. */
  lemma WrapShownWidth(words: seq<string>)
    ensures forall k :: 0 <= k < |Groups(Wrap(words))| ==>
      |Trim(Spaced(Groups(Wrap(words))[k]))| <= LineWidth || |Groups(Wrap(words))[k]| == 1
  {
    var g := Groups(Wrap(words));
    WrapWidth(words);
    forall k | 0 <= k < |g| && |g[k]| != 1
      ensures |Trim(Spaced(g[k]))| <= LineWidth
    {
      if g[k] != [] {
        SpacedAppend(g[k][..|g[k]| - 1], g[k][|g[k]| - 1]);
        assert g[k][..|g[k]| - 1] + [g[k][|g[k]| - 1]] == g[k];
        TrimDropsTrailingSpace(Spaced(g[k]));
      }
    }
  }

  /** The first word of each group would not have fit at the end of the
      group before it. */
  predicate Greedy(w: Wrapped)
  {
    forall k :: 0 < k < |Groups(w)| ==>
      Groups(w)[k] != [] && |Spaced(Groups(w)[k - 1]) + Groups(w)[k][0]| > LineWidth
  }

  /** The wrap is greedy. */
  lemma {:induction false} WrapGreedy(words: seq<string>)
    ensures Greedy(Wrap(words))
    decreases |words|
  {
    if words != [] {
      var ws := words[..|words| - 1];
      var word := words[|words| - 1];
      var w := Wrap(ws);
      WrapGreedy(ws);
      var w' := Wrap(words);
      var g, g' := Groups(w), Groups(w');
      if |Spaced(w.current) + word| > LineWidth {
        assert g' == g + [[word]];
        forall k | 0 < k < |g'|
          ensures g'[k] != [] && |Spaced(g'[k - 1]) + g'[k][0]| > LineWidth
        {
          if k < |g| {
            assert g'[k] == g[k] && g'[k - 1] == g[k - 1];
          } else {
            assert g'[k - 1] == w.current && g'[k] == [word];
          }
        }
      } else {
        assert g' == w.done + [w.current + [word]];
        forall k | 0 < k < |g'|
          ensures g'[k] != [] && |Spaced(g'[k - 1]) + g'[k][0]| > LineWidth
        {
          assert g[k] != [] && |Spaced(g[k - 1]) + g[k][0]| > LineWidth;
          assert g'[k - 1] == g[k - 1];
          if k + 1 < |g'| {
            assert g'[k] == g[k];
          } else {
            assert g[k] == w.current;
            assert g'[k] == w.current + [word];
          }
        }
      }
    }
  }

  /** The operator that shows the trimmed text of a line. */
  function Show(raw: string): string
  {
    ShowText(Trim(raw))
  }

  /** The operators pushed for a list of groups: each group shown, then a
      move to the next line. */
  function PushGroups(ops: seq<string>, groups: seq<seq<string>>): (r: seq<string>)
    ensures |r| == |ops| + 2 * |groups|
  {
    if groups == [] then ops
    else PushGroups(ops, groups[..|groups| - 1]) + [Show(Spaced(groups[|groups| - 1]))] + ["T*"]
  }

  lemma PushGroupsAppend(ops: seq<string>, groups: seq<seq<string>>, g: seq<string>)
    ensures PushGroups(ops, groups + [g]) == PushGroups(ops, groups) + [Show(Spaced(g))] + ["T*"]
  {
    assert (groups + [g])[..|groups|] == groups;
  }

  /** The operators pushed for one line of the body: a blank line moves down
      two lines; any other line is split at spaces and wrapped, each wrapped
      group is shown and followed by a line move, and the last group is
      shown when `currentLine` is not empty. */
  function PushLine(ops: seq<string>, line: string): seq<string>
  {
    if Trim(line) == [] then ops + ["T* T*"]
    else
      var w := Wrap(Split(line, ' '));
      var shown := PushGroups(ops, w.done);
      if Spaced(w.current) != [] then shown + [Show(Spaced(w.current))] + ["T*"] else shown
  }

  /** The `if (currentLine)` test never fails for a non-blank line: every
      group of the wrap is shown, the last one included, so the line's
      operators are two per group and end with a line move. */
  lemma NonBlankLine(ops: seq<string>, line: string)
    requires Trim(line) != []
    ensures PushLine(ops, line) == PushGroups(ops, Groups(Wrap(Split(line, ' '))))
    ensures |PushLine(ops, line)| == |ops| + 2 * |Groups(Wrap(Split(line, ' ')))|
    ensures PushLine(ops, line)[|PushLine(ops, line)| - 2] == Show(Spaced(Wrap(Split(line, ' ')).current))
    ensures PushLine(ops, line)[|PushLine(ops, line)| - 1] == "T*"
  {
    var w := Wrap(Split(line, ' '));
    var shown := Show(Spaced(w.current));
    var front := PushGroups(ops, w.done);
    assert |Spaced(w.current)| >= 1;
    assert PushLine(ops, line) == front + [shown] + ["T*"];
    PushGroupsAppend(ops, w.done, w.current);
    LastTwo(front, shown, "T*");
  }

  /** The last two elements of a list that ends with x and then y. */
  lemma LastTwo<T>(a: seq<T>, x: T, y: T)
    ensures var b := a + [x] + [y]; |b| >= 2 && b[|b| - 2] == x && b[|b| - 1] == y
  {
  }

  /** A line of nothing but white space moves down two lines and shows
      nothing. */
  lemma BlankLine(ops: seq<string>, line: string)
    requires forall k :: 0 <= k < |line| ==> IsSpace(line[k])
    ensures PushLine(ops, line) == ops + ["T* T*"]
  {
    TrimBlank(line);
  }

  /** Appending to a list that extends ops keeps it extending ops. */
  lemma AppendAfter<T>(ops: seq<T>, a: seq<T>, b: seq<T>, x: seq<T>, y: seq<T>)
    requires a == ops + b
    ensures a + x + y == ops + (b + x + y)
  {
  }

  /** The groups are pushed after the operators already there, which stay. */
  lemma {:induction false} PushGroupsFront(ops: seq<string>, groups: seq<seq<string>>)
    ensures PushGroups(ops, groups) == ops + PushGroups([], groups)
    decreases |groups|
  {
    if groups != [] {
      var g, last := groups[..|groups| - 1], groups[|groups| - 1];
      assert groups == g + [last];
      PushGroupsFront(ops, g);
      PushGroupsAppend(ops, g, last);
      PushGroupsAppend([], g, last);
      AppendAfter(ops, PushGroups(ops, g), PushGroups([], g), [Show(Spaced(last))], ["T*"]);
    }
  }

  lemma PushLineFront(ops: seq<string>, line: string)
    ensures PushLine(ops, line) == ops + PushLine([], line)
  {
    if Trim(line) != [] {
      var w := Wrap(Split(line, ' '));
      PushGroupsFront(ops, w.done);
      if Spaced(w.current) != [] {
        AppendAfter(ops, PushGroups(ops, w.done), PushGroups([], w.done), [Show(Spaced(w.current))], ["T*"]);
      }
    }
  }

  /** The operators pushed for every line of the body, in order. */
  function PushLines(ops: seq<string>, lines: seq<string>): seq<string>
  {
    if lines == [] then ops
    else PushLine(PushLines(ops, lines[..|lines| - 1]), lines[|lines| - 1])
  }

  /** The lines are pushed after the operators already there, which stay. */
  lemma {:induction false} PushLinesFront(ops: seq<string>, lines: seq<string>)
    ensures PushLines(ops, lines) == ops + PushLines([], lines)
    decreases |lines|
  {
    if lines != [] {
      var front, last := lines[..|lines| - 1], lines[|lines| - 1];
      var a, b := PushLines(ops, front), PushLines([], front);
      PushLinesFront(ops, front);
      PushLineFront(a, last);
      PushLineFront(b, last);
      AppendAfter(ops, a, b, PushLine([], last), []);
      assert PushLines(ops, lines) == PushLine(a, last);
      assert PushLines([], lines) == PushLine(b, last);
    }
  }

  /** The operators before the body: begin text, the title in 18-point
      Helvetica at (50, 750), then 11-point text 24 units lower with a
      leading of 14. The title is escaped but not trimmed. */
  function HeaderOps(title: string): (ops: seq<string>)
    ensures |ops| == 7
  {
    ["BT", "/F1 18 Tf", "50 750 Td", ShowText(title), "/F1 11 Tf", "0 -24 Td", "14 TL"]
  }

  /** All the operators of the content stream. */
  function StreamOps(title: string, text: string): seq<string>
  {
    PushLines(HeaderOps(title), Split(text, '\n')) + ["ET"]
  }

  /** The content stream: the operators joined by newlines. */
  function StreamText(title: string, text: string): string
  {
    Join(StreamOps(title, text), "\n")
  }

  lemma WrapPrefix(words: seq<string>, j: nat)
    requires j < |words|
    ensures Wrap(words[..j + 1]) == WrapStep(Wrap(words[..j]), words[j])
  {
    assert words[..j + 1][..j] == words[..j];
  }

  /** A word that does not fit: the current line is shown and the word
      starts the next one. */
  lemma WrapBreaks(ops: seq<string>, words: seq<string>, j: nat)
    requires j < |words| && |Spaced(Wrap(words[..j]).current) + words[j]| > LineWidth
    ensures PushGroups(ops, Wrap(words[..j + 1]).done)
      == PushGroups(ops, Wrap(words[..j]).done) + [Show(Spaced(Wrap(words[..j]).current))] + ["T*"]
    ensures Spaced(Wrap(words[..j + 1]).current) == words[j] + " "
  {
    var w := Wrap(words[..j]);
    WrapPrefix(words, j);
    PushGroupsAppend(ops, w.done, w.current);
    SpacedAppend([], words[j]);
    assert [] + [words[j]] == [words[j]];
  }

  /** A word that fits is added to the current line. */
  lemma WrapFits(words: seq<string>, j: nat)
    requires j < |words| && |Spaced(Wrap(words[..j]).current) + words[j]| <= LineWidth
    ensures Wrap(words[..j + 1]).done == Wrap(words[..j]).done
    ensures Spaced(Wrap(words[..j + 1]).current) == Spaced(Wrap(words[..j]).current) + words[j] + " "
  {
    var w := Wrap(words[..j]);
    WrapPrefix(words, j);
    SpacedAppend(w.current, words[j]);
  }

  /** The word loop of `formatTextStream`: the words of one line are
      wrapped onto the operator list, each full line shown as it is left;
      `currentLine` holds the words of the last line. */
  method WrapWords(ops: seq<string>, words: seq<string>) returns (ops': seq<string>, currentLine: string)
    ensures ops' == PushGroups(ops, Wrap(words).done)
    ensures currentLine == Spaced(Wrap(words).current)
  {
    ops' := ops;
    currentLine := [];
    for j := 0 to |words|
      invariant ops' == PushGroups(ops, Wrap(words[..j]).done)
      invariant currentLine == Spaced(Wrap(words[..j]).current)
    {
      var word := words[j];
      if |currentLine + word| > 85 {
        WrapBreaks(ops, words, j);
        ops' := ops' + [ShowText(Trim(currentLine))];
        ops' := ops' + ["T*"];
        currentLine := word + " ";
      } else {
        WrapFits(words, j);
        currentLine := currentLine + word + " ";
      }
    }
    assert words[..|words|] == words;
  }

  /** A line of the body that is not blank, as `formatTextStream` handles it:
      split at spaces, wrapped, and the last line shown when it is not
      empty. */
  method WrapLine(ops: seq<string>, line: string) returns (ops': seq<string>)
    requires Trim(line) != []
    ensures ops' == PushLine(ops, line)
  {
    var words := Split(line, ' ');
    var currentLine;
    ops', currentLine := WrapWords(ops, words);
    if currentLine != [] {
      ops' := ops' + [ShowText(Trim(currentLine))];
      ops' := ops' + ["T*"];
    }
  }

  lemma PushLinesAppend(ops: seq<string>, lines: seq<string>, i: nat)
    requires i < |lines|
    ensures PushLines(ops, lines[..i + 1]) == PushLine(PushLines(ops, lines[..i]), lines[i])
  {
    assert lines[..i + 1][..i] == lines[..i];
  }

  /** The line loop of `formatTextStream`: a blank line pushes a double
      line move, any other line its wrapped words. */
  method PushBody(ops: seq<string>, lines: seq<string>) returns (ops': seq<string>)
    ensures ops' == PushLines(ops, lines)
  {
    ops' := ops;
    for i := 0 to |lines|
      invariant ops' == PushLines(ops, lines[..i])
    {
      var line := lines[i];
      PushLinesAppend(ops, lines, i);
      if Trim(line) == [] {
        ops' := ops' + ["T* T*"];
      } else {
        ops' := WrapLine(ops', line);
      }
    }
    assert lines[..|lines|] == lines;
  }

  /** `formatTextStream`: the title operators, the lines of the body split at
      '\n', and the end of the text object, joined by newlines. */
  method FormatTextStream(title: string, text: string) returns (stream: string)
    ensures stream == StreamText(title, text)
  {
    var ops: seq<string> := [];
    ops := ops + ["BT"];
    ops := ops + ["/F1 18 Tf"];
    ops := ops + ["50 750 Td"];
    ops := ops + [ShowText(title)];
    ops := ops + ["/F1 11 Tf"];
    ops := ops + ["0 -24 Td"];
    ops := ops + ["14 TL"];
    assert ops == HeaderOps(title);
    var lines := Split(text, '\n');
    ops := PushBody(ops, lines);
    ops := ops + ["ET"];
    stream := Join(ops, "\n");
  }

  /** The stream opens with the seven header operators and closes with
      `ET`, whatever the body. */
  lemma StreamFrame(title: string, text: string)
    ensures |StreamOps(title, text)| >= 8
    ensures StreamOps(title, text)[..7] == HeaderOps(title)
    ensures StreamOps(title, text)[|StreamOps(title, text)| - 1] == "ET"
  {
    OpsFrame(HeaderOps(title), Split(text, '\n'));
  }

  lemma OpsFrame(header: seq<string>, lines: seq<string>)
    ensures |PushLines(header, lines) + ["ET"]| >= |header| + 1
    ensures (PushLines(header, lines) + ["ET"])[..|header|] == header
    ensures (PushLines(header, lines) + ["ET"])[|PushLines(header, lines)|] == "ET"
  {
    var body := PushLines([], lines);
    PushLinesFront(header, lines);
    AppendAfter(header, PushLines(header, lines), body, ["ET"], []);
    SliceOfFront(header, body + ["ET"], 0, |header|);
  }
}
