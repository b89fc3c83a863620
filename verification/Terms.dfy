/** Text as terms: what the tokens of a string are, which codes a text row gets, and what its
    tokens add to the dictionary. */
module Terms {
  import opened Basics
  import W = WalRecords
  import opened MetaColumn
  import opened MetaRows

  // ----- tokens -----

  // `tokenize_text`.
  method TokenizeText(s: Str) returns (out: seq<Str>)
    ensures out == Tokenize(s)
  {
    hide Alnum, Lower;
    var cur: Str := [];
    out := [];
    for i := 0 to |s|
      invariant (out, cur) == TokensOf(s[..i])
    {
      assert s[..i + 1][..i] == s[..i];
      if Alnum(s[i]) {
        cur := cur + [Lower(s[i])];
      } else if cur != [] {
        out, cur := out + [cur], [];
      }
    }
    assert s[..|s|] == s;
    if cur != [] { out := out + [cur]; }
  }

  // The same bytes, except that ASCII letters may differ in case.
  ghost predicate SameButCase(s: Str, t: Str) {
    |s| == |t| && forall i :: 0 <= i < |s| ==>
      || s[i] == t[i]
      || (65 <= s[i] <= 90 && t[i] == s[i] + 32)
      || (97 <= s[i] <= 122 && t[i] == s[i] - 32)
  }

  // Letters count without their case.
  lemma {:induction false} CaseIsFolded(s: Str, t: Str)
    requires SameButCase(s, t)
    ensures TokensOf(s) == TokensOf(t) && Tokenize(s) == Tokenize(t)
  {
    if s != [] {
      var n := |s| - 1;
      assert SameButCase(s[..n], t[..n]);
      CaseIsFolded(s[..n], t[..n]);
      assert Alnum(s[n]) == Alnum(t[n]) && (Alnum(s[n]) ==> Lower(s[n]) == Lower(t[n]));
    }
  }

  // Neither a digit nor a letter.
  predicate Separator(b: W.Byte) { b < 48 || 57 < b < 65 || 90 < b < 97 || 122 < b }

  lemma {:induction false} TokensBehind(a: Str, b: W.Byte, c: Str)
    requires Separator(b)
    ensures TokensOf(a + [b] + c) == (Tokenize(a) + TokensOf(c).0, TokensOf(c).1)
  {
    var s := a + [b] + c;
    if c == [] {
      assert s[..|s| - 1] == a && s[|s| - 1] == b;
      assert Tokenize(a) + [] == Tokenize(a);
    } else {
      TokensBehind(a, b, c[..|c| - 1]);
      assert s[..|s| - 1] == a + [b] + c[..|c| - 1] && s[|s| - 1] == c[|c| - 1];
      var (out, cur) := TokensOf(c[..|c| - 1]);
      assert Tokenize(a) + (out + [cur]) == Tokenize(a) + out + [cur];
    }
  }

  // Any other byte ends a token.
  lemma SeparatorSplits(a: Str, b: W.Byte, c: Str)
    requires Separator(b)
    ensures Tokenize(a + [b] + c) == Tokenize(a) + Tokenize(c)
  {
    TokensBehind(a, b, c);
    var (out, cur) := TokensOf(c);
    assert Tokenize(a) + (out + [cur]) == Tokenize(a) + out + [cur];
  }

  // A word in lower case, digits included.
  ghost predicate Plain(w: Str) { forall i :: 0 <= i < |w| ==> 48 <= w[i] <= 57 || 97 <= w[i] <= 122 }

  lemma {:induction false} PlainIsRead(w: Str)
    requires Plain(w)
    ensures TokensOf(w) == ([], w)
  {
    if w != [] {
      var n := |w| - 1;
      PlainIsRead(w[..n]);
      assert Alnum(w[n]) && Lower(w[n]) == w[n];
      assert w == w[..n] + [w[n]];
    }
  }

  // Such a word is one token, and nothing is none.
  lemma WordIsToken(w: Str)
    requires Plain(w)
    ensures Tokenize(w) == if w == [] then [] else [w]
  {
    PlainIsRead(w);
  }

  ghost predicate TokenizerLaws(f: Str -> seq<Str>) {
    && (forall s, t :: SameButCase(s, t) ==> f(s) == f(t))
    && (forall a, b, c :: Separator(b) ==> f(a + [b] + c) == f(a) + f(c))
    && forall w :: Plain(w) ==> f(w) == if w == [] then [] else [w]
  }

  /** The laws are met, and they leave one tokenizer: whatever meets them agrees with it on
      every string. */
  lemma TokensAreFixed(f: Str -> seq<Str>, s: Str)
    requires TokenizerLaws(f)
    ensures TokenizerLaws(Tokenize) && f(s) == Tokenize(s)
  {
    LawsHold();
    LawsAgree(f, s);
  }

  lemma LawsHold()
    ensures TokenizerLaws(Tokenize)
  {
    hide TokensOf, Tokenize, SameButCase, Plain;
    forall s, t | SameButCase(s, t) ensures Tokenize(s) == Tokenize(t) { CaseIsFolded(s, t); }
    forall a, b, c | Separator(b) ensures Tokenize(a + [b] + c) == Tokenize(a) + Tokenize(c) {
      SeparatorSplits(a, b, c);
    }
    forall w | Plain(w) ensures Tokenize(w) == if w == [] then [] else [w] { WordIsToken(w); }
  }

  lemma {:induction false} LawsAgree(f: Str -> seq<Str>, s: Str)
    requires TokenizerLaws(f)
    ensures f(s) == Tokenize(s)
    decreases |s|
  {
    hide TokensOf, Tokenize;
    if i :| 0 <= i < |s| && Separator(s[i]) {
      assert s == s[..i] + [s[i]] + s[i + 1..];
      LawsAgree(f, s[..i]);
      LawsAgree(f, s[i + 1..]);
      SeparatorSplits(s[..i], s[i], s[i + 1..]);
    } else {
      var w := InLowerCase(s);
      WordIsToken(w);
      CaseIsFolded(s, w);
    }
  }

  lemma {:induction false} InLowerCase(s: Str) returns (w: Str)
    requires forall i :: 0 <= i < |s| ==> !Separator(s[i])
    ensures Plain(w) && SameButCase(s, w)
  {
    w := [];
    if s != [] {
      var n := |s| - 1;
      var rest := InLowerCase(s[..n]);
      w := rest + [if 65 <= s[n] <= 90 then s[n] + 32 else s[n]];
    }
  }

  // ----- codes -----

  // The token holds its first place in the dictionary, and that code is among the codes.
  ghost predicate Coded(dict: seq<Str>, codes: seq<nat>, x: Str) {
    exists c :: c in codes && c < |dict| && dict[c] == x && x !in dict[..c]
  }

  /** The codes of a text row are those of its tokens, each once, in order of first occurrence:
      the codes of any beginning of the text come first. */
  lemma TermsAreTokens(dict: seq<Str>, toks: seq<Str>, i: nat)
    requires AllIn(toks, dict) && i <= |toks|
    ensures var t := TermsOf(dict, toks);
      && Distinct(t) && TermsOf(dict, toks[..i]) <= t
      && (forall c :: c in t ==> c < |dict| && dict[c] in toks)
      && forall x :: x in toks ==> Coded(dict, t, x)
  {
    hide Coded;
    TermsFacts(dict, toks);
    TermsGrow(dict, toks, i);
    EveryTokenCoded(dict, toks);
  }

  lemma {:induction false} TermsGrow(dict: seq<Str>, toks: seq<Str>, i: nat)
    requires i <= |toks|
    ensures TermsOf(dict, toks[..i]) <= TermsOf(dict, toks)
  {
    if i == |toks| {
      assert toks[..i] == toks;
    } else {
      var rest := toks[..|toks| - 1];
      assert rest[..i] == toks[..i];
      TermsGrow(dict, rest, i);
    }
  }

  lemma {:induction false} EveryTokenCoded(dict: seq<Str>, toks: seq<Str>)
    requires AllIn(toks, dict)
    ensures var t := TermsOf(dict, toks);
      (forall c :: c in t ==> c < |dict| && dict[c] in toks) && forall x :: x in toks ==> Coded(dict, t, x)
  {
    if toks != [] {
      hide Coded;
      var rest, last := toks[..|toks| - 1], toks[|toks| - 1];
      EveryTokenCoded(dict, rest);
      assert last in dict && toks == rest + [last];
      FirstPlaceCoded(dict, TermsOf(dict, toks), last);
      forall x | x in rest ensures Coded(dict, TermsOf(dict, toks), x) {
        StillCoded(dict, TermsOf(dict, rest), TermsOf(dict, toks), x);
      }
    }
  }

  lemma FirstPlaceCoded(dict: seq<Str>, codes: seq<nat>, x: Str)
    requires x in dict && IndexOf(dict, x) in codes
    ensures Coded(dict, codes, x)
  {
    var c := IndexOf(dict, x);
    assert c < |dict| && dict[c] == x && x !in dict[..c];
  }

  lemma StillCoded(dict: seq<Str>, codes: seq<nat>, more: seq<nat>, x: Str)
    requires Coded(dict, codes, x) && codes <= more
    ensures Coded(dict, more, x)
  {
  }

  // The column with more terms in its dictionary, none of them in any row.
  function Widened(c: Column, added: seq<Str>): Column {
    c.(dict := c.dict + added, count := c.count + seq(|added|, _ => 0), postings := c.postings + seq(|added|, _ => []))
  }

  /** Interning adds the tokens that are new, each once and none else, with no rows and no
      count; every term that was there keeps its code. */
  lemma {:induction false} InternedAdds(c: Column, toks: seq<Str>) returns (added: seq<Str>)
    ensures InternedAll(c, toks) == Widened(c, added)
    ensures Distinct(added) && forall x :: x in added <==> x in toks && x !in c.dict
  {
    if toks == [] {
      added := [];
      NothingAdded(c);
    } else {
      hide Interned, Widened;
      var rest, last := toks[..|toks| - 1], toks[|toks| - 1];
      assert toks == rest + [last];
      added := InternedAdds(c, rest);
      added := AddOne(c, added, last);
    }
  }

  lemma NothingAdded(c: Column)
    ensures Widened(c, []) == c
  {
    assert c.dict + [] == c.dict && c.count + seq(0, _ => 0) == c.count;
    assert c.postings + seq(0, _ => []) == c.postings;
  }

  lemma AddOne(c: Column, before: seq<Str>, last: Str) returns (added: seq<Str>)
    requires Distinct(before) && forall x :: x in before ==> x !in c.dict
    ensures Interned(Widened(c, before), last) == Widened(c, added)
    ensures Distinct(added) && forall x :: x in added <==> x in before || (x == last && x !in c.dict)
  {
    var w := Widened(c, before);
    if last in w.dict {
      added := before;
    } else {
      added := before + [last];
      assert w.dict + [last] == c.dict + added;
      assert w.count + [0] == c.count + seq(|added|, _ => 0);
      assert w.postings + [[]] == c.postings + seq(|added|, _ => []);
    }
  }

  // The new terms come in order of first occurrence.
  lemma {:induction false} InternedInOrder(c: Column, toks: seq<Str>, i: nat)
    requires i <= |toks|
    ensures InternedAll(c, toks[..i]).dict <= InternedAll(c, toks).dict
  {
    if i == |toks| {
      assert toks[..i] == toks;
    } else {
      var rest := toks[..|toks| - 1];
      assert rest[..i] == toks[..i];
      InternedInOrder(c, rest, i);
    }
  }
}
