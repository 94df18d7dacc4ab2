/**
 * The text cleaner `clean` of the content script: every run of white space
 * becomes one space, every double quote becomes a single quote, and the ends
 * are trimmed. Null, undefined and the empty string all clean to "".
 */
module Text {
  import opened Wrappers

  /** The characters of JavaScript's `\s` class, which are also those `trim` removes. */
  predicate IsWs(c: char) {
    c == '\t' || c == '\n' || c == '\U{B}' || c == '\U{C}' || c == '\r' || c == ' '
    || c == '\U{A0}' || c == '\U{1680}' || ('\U{2000}' <= c <= '\U{200A}')
    || c == '\U{2028}' || c == '\U{2029}' || c == '\U{202F}' || c == '\U{205F}'
    || c == '\U{3000}' || c == '\U{FEFF}'
  }

  predicate NoQuote(s: string) {
    forall i :: 0 <= i < |s| ==> s[i] != '"'
  }

  /** Every white-space character is a plain space and no two of them are adjacent. */
  predicate SingleSpaced(s: string) {
    (forall i :: 0 <= i < |s| && IsWs(s[i]) ==> s[i] == ' ')
    && (forall i :: 0 <= i < |s| - 1 ==> !(IsWs(s[i]) && IsWs(s[i + 1])))
  }

  predicate Trimmed(s: string) {
    s == [] || (!IsWs(s[0]) && !IsWs(s[|s| - 1]))
  }

  /** What every result of `clean` looks like. */
  predicate IsClean(s: string) {
    NoQuote(s) && SingleSpaced(s) && Trimmed(s)
  }

  /** The characters of `s` that are not white space, in order. */
  function NonWs(s: string): string {
    if s == [] then [] else (if IsWs(s[0]) then [] else [s[0]]) + NonWs(s[1..])
  }

  /** Removes the white space at the front of `s`. */
  function TrimStart(s: string): (r: string)
    ensures |r| <= |s| && r == s[|s| - |r|..]
    ensures r == [] || !IsWs(r[0])
    ensures forall i :: 0 <= i < |s| - |r| ==> IsWs(s[i])
  {
    if s != [] && IsWs(s[0]) then TrimStart(s[1..]) else s
  }

  /** Removes the white space at the end of `s`. */
  function TrimEnd(s: string): (r: string)
    ensures |r| <= |s| && r == s[..|r|]
    ensures r == [] || !IsWs(r[|r| - 1])
    ensures forall i :: |r| <= i < |s| ==> IsWs(s[i])
  {
    if s != [] && IsWs(s[|s| - 1]) then TrimEnd(s[..|s| - 1]) else s
  }

  predicate AllWs(s: string) {
    forall i :: 0 <= i < |s| ==> IsWs(s[i])
  }

  /**
   * `String.prototype.trim`: the input without its leading and trailing white
   * space (`TrimStart` and `TrimEnd` say which characters go); it is empty
   * exactly when the input is all white space.
   */
  function Trim(s: string): (r: string)
    ensures Trimmed(r)
    ensures r == [] <==> AllWs(s)
  {
    var a := TrimStart(s);
    var t := TrimEnd(a);
    assert t != [] ==> t[0] == a[0];
    assert a != [] ==> t != [];
    t
  }

  /** `replace(/\s+/g, ' ')`: each maximal run of white space becomes one space. */
  function Collapse(s: string): (r: string)
    ensures (r == []) == (s == [])
    ensures s != [] ==> (IsWs(r[0]) <==> IsWs(s[0]))
    ensures SingleSpaced(r)
    decreases |s|
  {
    if s == [] then []
    else if IsWs(s[0]) then
      var t := Collapse(TrimStart(s[1..]));
      ConsSingleSpaced(' ', t);
      [' '] + t
    else
      var t := Collapse(s[1..]);
      ConsSingleSpaced(s[0], t);
      [s[0]] + t
  }

  /** A character in front of a single-spaced string keeps it single spaced if it is not a second space. */
  lemma ConsSingleSpaced(c: char, t: string)
    requires SingleSpaced(t)
    requires IsWs(c) ==> c == ' ' && (t == [] || !IsWs(t[0]))
    ensures SingleSpaced([c] + t)
  {
    var r := [c] + t;
    forall i | 0 <= i < |r| - 1 ensures !(IsWs(r[i]) && IsWs(r[i + 1])) {
      if i > 0 {
        assert r[i] == t[i - 1] && r[i + 1] == t[i];
      }
    }
    forall i | 0 <= i < |r| && IsWs(r[i]) ensures r[i] == ' ' {
      if i > 0 {
        assert r[i] == t[i - 1];
      }
    }
  }

  /** `replace(/"/g, "'")`. */
  function ReplaceQuotes(s: string): (r: string)
    ensures |r| == |s|
    ensures forall i :: 0 <= i < |s| ==> r[i] == (if s[i] == '"' then '\'' else s[i])
  {
    if s == [] then [] else [if s[0] == '"' then '\'' else s[0]] + ReplaceQuotes(s[1..])
  }

  /** `clean(text)`: a missing or empty text is treated as "". */
  function Clean(text: Option<string>): (r: string)
    ensures IsClean(r)
    ensures text == None || text == Some([]) ==> r == []
  {
    var q := ReplaceQuotes(Collapse(text.GetOr([])));
    QuotesReplacedKeepSpacing(Collapse(text.GetOr([])));
    TrimKeepsClean(q);
    Trim(q)
  }

  lemma QuotesReplacedKeepSpacing(s: string)
    requires SingleSpaced(s)
    ensures NoQuote(ReplaceQuotes(s)) && SingleSpaced(ReplaceQuotes(s))
  {
    var r := ReplaceQuotes(s);
    forall i | 0 <= i < |s| ensures IsWs(r[i]) <==> IsWs(s[i]) { }
  }

  lemma TrimKeepsClean(s: string)
    requires NoQuote(s) && SingleSpaced(s)
    ensures IsClean(Trim(s))
  {
    var a := TrimStart(s);
    SuffixKeepsSpacing(s, a);
    PrefixKeepsSpacing(a, TrimEnd(a));
  }

  /** A suffix of a quote-free, single-spaced string is quote-free and single spaced. */
  lemma SuffixKeepsSpacing(s: string, a: string)
    requires |a| <= |s| && a == s[|s| - |a|..]
    requires NoQuote(s) && SingleSpaced(s)
    ensures NoQuote(a) && SingleSpaced(a)
  {
    forall k | 0 <= k < |a| ensures a[k] == s[|s| - |a| + k] { }
  }

  /** So is a prefix. */
  lemma PrefixKeepsSpacing(a: string, t: string)
    requires |t| <= |a| && t == a[..|t|]
    requires NoQuote(a) && SingleSpaced(a)
    ensures NoQuote(t) && SingleSpaced(t)
  {
    forall k | 0 <= k < |t| ensures t[k] == a[k] { }
  }
}

module TextProperties {
  import opened Wrappers
  import opened Text

  /** A string that already looks clean is left alone by `clean`. */
  lemma {:induction false} CleanFixesCleanText(s: string)
    requires IsClean(s)
    ensures Clean(Some(s)) == s
  {
    CollapseFixesSingleSpaced(s);
    assert ReplaceQuotes(s) == s;
  }

  /** `clean` is idempotent. */
  lemma CleanIdempotent(text: Option<string>)
    ensures Clean(Some(Clean(text))) == Clean(text)
  {
    CleanFixesCleanText(Clean(text));
  }

  lemma {:induction false} CollapseFixesSingleSpaced(s: string)
    requires SingleSpaced(s)
    ensures Collapse(s) == s
    decreases |s|
  {
    if s != [] {
      var t := s[1..];
      SingleSpacedTail(s);
      CollapseFixesSingleSpaced(t);
      if IsWs(s[0]) {
        assert s[0] == ' ';
        assert t == [] || !IsWs(t[0]) by {
          if t != [] { assert t[0] == s[1]; }
        }
        assert TrimStart(t) == t;
        calc {
          Collapse(s);
          [' '] + Collapse(TrimStart(t));
          [' '] + t;
          s;
        }
      } else {
        calc {
          Collapse(s);
          [s[0]] + Collapse(t);
          s;
        }
      }
    }
  }

  /**
   * A maximal run of white space, between non-white-space text or the ends of
   * the string, becomes exactly one space, and the text on either side is
   * collapsed on its own.
   */
  lemma {:induction false} CollapseRun(a: string, w: string, b: string)
    requires a == [] || !IsWs(a[|a| - 1])
    requires w != [] && AllWs(w)
    requires b == [] || !IsWs(b[0])
    ensures Collapse(a + w + b) == Collapse(a) + " " + Collapse(b)
    decreases |a|, 1
  {
    if a == [] {
      CollapseRunAtFront(a, w, b);
    } else if IsWs(a[0]) {
      CollapseRunAfterWs(a, w, b);
    } else {
      CollapseRunAfterText(a, w, b);
    }
  }

  /** The base case: the run starts the string. */
  lemma CollapseRunAtFront(a: string, w: string, b: string)
    requires a == []
    requires w != [] && AllWs(w)
    requires b == [] || !IsWs(b[0])
    ensures Collapse(a + w + b) == Collapse(a) + " " + Collapse(b)
  {
    CollapseLeadingRun(w, b);
    EmptyConcat(a, w + b, b);
    ConcatAssoc(a, w, b);
  }

  /** The induction step when the text before the run starts with white space. */
  lemma {:induction false} CollapseRunAfterWs(a: string, w: string, b: string)
    requires a != [] && IsWs(a[0]) && !IsWs(a[|a| - 1])
    requires w != [] && AllWs(w)
    requires b == [] || !IsWs(b[0])
    ensures Collapse(a + w + b) == Collapse(a) + " " + Collapse(b)
    decreases |a|, 0
  {
    var t := TrimStart(a[1..]);
    TrimStartKeepsLast(a[1..]);
    CollapseRun(t, w, b);
    CollapseWsStep(a, w, b);
  }

  /** The induction step when the text before the run starts with a character that is kept. */
  lemma {:induction false} CollapseRunAfterText(a: string, w: string, b: string)
    requires a != [] && !IsWs(a[0]) && !IsWs(a[|a| - 1])
    requires w != [] && AllWs(w)
    requires b == [] || !IsWs(b[0])
    ensures Collapse(a + w + b) == Collapse(a) + " " + Collapse(b)
    decreases |a|, 0
  {
    CollapseRun(a[1..], w, b);
    CollapseTextStep(a, w, b);
  }

  /** A run at the front becomes one space. */
  lemma CollapseLeadingRun(w: string, b: string)
    requires w != [] && AllWs(w)
    requires b == [] || !IsWs(b[0])
    ensures Collapse(w + b) == " " + Collapse(b)
  {
    var s := w + b;
    assert TrimStart(s[1..]) == b by {
      assert s[1..] == w[1..] + b;
      TrimStartSkipsWs(w[1..], b);
    }
    CollapseUnfoldWs(s);
  }

  lemma CollapseWsStep(a: string, w: string, b: string)
    requires a != [] && IsWs(a[0])
    requires TrimStart(a[1..]) != []
    requires Collapse(TrimStart(a[1..]) + w + b) == Collapse(TrimStart(a[1..])) + " " + Collapse(b)
    ensures Collapse(a + w + b) == Collapse(a) + " " + Collapse(b)
  {
    var s := a + w + b;
    var t := TrimStart(a[1..]);
    TrimAfterFirst(a, w + b);
    ConcatAssoc(a, w, b);
    ConcatAssoc(t, w, b);
    CollapseUnfoldWs(s);
    CollapseUnfoldWs(a);
    ConsAssoc(' ', Collapse(t), Collapse(b));
  }

  lemma CollapseTextStep(a: string, w: string, b: string)
    requires a != [] && !IsWs(a[0])
    requires Collapse(a[1..] + w + b) == Collapse(a[1..]) + " " + Collapse(b)
    ensures Collapse(a + w + b) == Collapse(a) + " " + Collapse(b)
  {
    var s := a + w + b;
    TextAfterFirst(a, w + b);
    ConcatAssoc(a, w, b);
    ConcatAssoc(a[1..], w, b);
    CollapseUnfoldText(s);
    CollapseUnfoldText(a);
    ConsAssoc(a[0], Collapse(a[1..]), Collapse(b));
  }

  lemma CollapseUnfoldWs(s: string)
    requires s != [] && IsWs(s[0])
    ensures Collapse(s) == [' '] + Collapse(TrimStart(s[1..]))
  {
  }

  lemma CollapseUnfoldText(s: string)
    requires s != [] && !IsWs(s[0])
    ensures Collapse(s) == [s[0]] + Collapse(s[1..])
  {
  }

  lemma EmptyConcat(x: string, y: string, z: string)
    requires x == []
    ensures x + y == y && Collapse(x) + " " + Collapse(z) == " " + Collapse(z)
  {
  }

  lemma ConcatAssoc(x: string, y: string, z: string)
    ensures x + (y + z) == x + y + z
  {
  }

  lemma ConsAssoc(c: char, x: string, y: string)
    ensures [c] + (x + " " + y) == ([c] + x) + " " + y
  {
  }

  lemma TextAfterFirst(a: string, y: string)
    requires a != []
    ensures (a + y)[0] == a[0] && (a + y)[1..] == a[1..] + y
  {
  }

  lemma TrimAfterFirst(a: string, y: string)
    requires a != [] && TrimStart(a[1..]) != []
    ensures (a + y)[0] == a[0] && TrimStart((a + y)[1..]) == TrimStart(a[1..]) + y
  {
    assert (a + y)[1..] == a[1..] + y;
    TrimStartAppend(a[1..], y);
  }

  /** Trimming the front of a string that ends in text keeps that last character. */
  lemma TrimStartKeepsLast(x: string)
    requires x != [] && !IsWs(x[|x| - 1])
    ensures TrimStart(x) != [] && TrimStart(x)[|TrimStart(x)| - 1] == x[|x| - 1]
  {
  }

  /** Trimming the front of white space followed by text keeps exactly the text. */
  lemma {:induction false} TrimStartSkipsWs(w: string, b: string)
    requires AllWs(w)
    requires b == [] || !IsWs(b[0])
    ensures TrimStart(w + b) == b
    decreases |w|
  {
    if w == [] {
      assert w + b == b;
    } else {
      assert (w + b)[0] == w[0] && (w + b)[1..] == w[1..] + b;
      TrimStartSkipsWs(w[1..], b);
    }
  }

  /** Once trimming the front reaches text, what follows is kept as it is. */
  lemma {:induction false} TrimStartAppend(x: string, y: string)
    requires TrimStart(x) != []
    ensures TrimStart(x + y) == TrimStart(x) + y
    decreases |x|
  {
    assert (x + y)[0] == x[0];
    if IsWs(x[0]) {
      assert (x + y)[1..] == x[1..] + y;
      TrimStartAppend(x[1..], y);
    }
  }

  lemma SingleSpacedTail(s: string)
    requires s != [] && SingleSpaced(s)
    ensures SingleSpaced(s[1..])
  {
    var t := s[1..];
    forall i | 0 <= i < |t| ensures t[i] == s[i + 1] { }
  }

  /**
   * `clean` only removes or merges white space and turns `"` into `'`: the
   * non-white-space characters of the result are those of the input, in order,
   * with quotes replaced.
   */
  lemma CleanKeepsText(s: string)
    ensures NonWs(Clean(Some(s))) == ReplaceQuotes(NonWs(s))
  {
    var c := Collapse(s);
    var q := ReplaceQuotes(c);
    calc {
      NonWs(Clean(Some(s)));
      NonWs(TrimEnd(TrimStart(q)));
      { NonWsTrimEnd(TrimStart(q)); }
      NonWs(TrimStart(q));
      { NonWsTrimStart(q); }
      NonWs(q);
      { NonWsReplaceQuotes(c); }
      ReplaceQuotes(NonWs(c));
      { NonWsCollapse(s); }
      ReplaceQuotes(NonWs(s));
    }
  }

  lemma {:induction false} NonWsConcat(a: string, b: string)
    ensures NonWs(a + b) == NonWs(a) + NonWs(b)
  {
    if a == [] {
      assert a + b == b;
    } else {
      assert (a + b)[0] == a[0];
      assert (a + b)[1..] == a[1..] + b;
      NonWsConcat(a[1..], b);
    }
  }

  lemma {:induction false} NonWsTrimStart(s: string)
    ensures NonWs(TrimStart(s)) == NonWs(s)
  {
    if s != [] && IsWs(s[0]) {
      NonWsTrimStart(s[1..]);
    }
  }

  lemma {:induction false} NonWsTrimEnd(s: string)
    ensures NonWs(TrimEnd(s)) == NonWs(s)
  {
    if s != [] && IsWs(s[|s| - 1]) {
      var p := s[..|s| - 1];
      NonWsTrimEnd(p);
      assert s == p + [s[|s| - 1]];
      NonWsConcat(p, [s[|s| - 1]]);
    }
  }

  lemma {:induction false} NonWsCollapse(s: string)
    ensures NonWs(Collapse(s)) == NonWs(s)
    decreases |s|
  {
    if s != [] {
      var rest := if IsWs(s[0]) then TrimStart(s[1..]) else s[1..];
      var head := if IsWs(s[0]) then ' ' else s[0];
      NonWsCollapse(rest);
      assert ([head] + Collapse(rest))[1..] == Collapse(rest);
      if IsWs(s[0]) { NonWsTrimStart(s[1..]); }
    }
  }

  lemma {:induction false} NonWsReplaceQuotes(s: string)
    ensures NonWs(ReplaceQuotes(s)) == ReplaceQuotes(NonWs(s))
  {
    if s != [] {
      NonWsReplaceQuotes(s[1..]);
      var h := if IsWs(s[0]) then [] else [s[0]];
      assert ReplaceQuotes(s)[1..] == ReplaceQuotes(s[1..]);
      NonWsConcat(h, NonWs(s[1..]));
      ReplaceQuotesConcat(h, NonWs(s[1..]));
    }
  }

  lemma ReplaceQuotesConcat(a: string, b: string)
    ensures ReplaceQuotes(a + b) == ReplaceQuotes(a) + ReplaceQuotes(b)
  {
    var l, r := ReplaceQuotes(a + b), ReplaceQuotes(a) + ReplaceQuotes(b);
    assert |l| == |r|;
    forall i | 0 <= i < |l| ensures l[i] == r[i] {
      if i < |a| { assert (a + b)[i] == a[i]; } else { assert (a + b)[i] == b[i - |a|]; }
    }
  }
}
