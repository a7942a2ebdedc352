/** File-mask matching with one fallback: `*` and `?`, backing up to the last star when a later character fails. */
module Wildmatch {
  datatype Token = Lit(c: char) | Any | Star

  function Letter(c: char): Token {
    if c == '*' then Star else if c == '?' then Any else Lit(c)
  }

  /** A mask as it is meant. */
  function Ordinary(wild: string): seq<Token> {
    seq(|wild|, i requires 0 <= i < |wild| => Letter(wild[i]))
  }

  /** A mask as the code reads it: the character after a star stands for itself, whatever it is. */
  function Tokens(wild: string): (toks: seq<Token>)
    ensures |toks| == |wild|
    ensures forall i {:trigger toks[i]} :: 0 <= i < |toks| ==>
      toks[i] == if i > 0 && toks[i - 1] == Star then Lit(wild[i]) else Letter(wild[i])
  {
    if wild == "" then
      []
    else
      var n := |wild| - 1;
      var before := Tokens(wild[..n]);
      before + [if n > 0 && before[n - 1] == Star then Lit(wild[n]) else Letter(wild[n])]
  }

  predicate Takes(tok: Token, c: char) {
    tok == Any || tok == Lit(c)
  }

  /** The first l characters of s match the first n tokens: a star stands for any stretch of characters. */
  predicate Means(s: string, l: nat, toks: seq<Token>, n: nat)
    requires l <= |s| && n <= |toks|
    decreases n, l
  {
    if n == 0 then l == 0
    else if toks[n - 1] == Star then Means(s, l, toks, n - 1) || (l > 0 && Means(s, l - 1, toks, n))
    else l > 0 && Takes(toks[n - 1], s[l - 1]) && Means(s, l - 1, toks, n - 1)
  }

  /** s matches the first n tokens, and nothing shorter that s starts with does. */
  ghost predicate Shortest(s: string, toks: seq<Token>, n: nat)
    requires n <= |toks|
  {
    Means(s, |s|, toks, n) && forall l: nat {:trigger Means(s, l, toks, n)} :: l < |s| ==> !Means(s, l, toks, n)
  }

  predicate Stop(toks: seq<Token>, n: nat) {
    n <= |toks| && (n == |toks| || toks[n] == Star)
  }

  predicate Open(toks: seq<Token>) {
    toks != [] && toks[|toks| - 1] == Star
  }

  /** What the code accepts: strings that match a mask that ends in a star; and strings that are the shortest match of
      a mask, or of its part before any of its stars. */
  ghost predicate Accepts(s: string, toks: seq<Token>) {
    || (Open(toks) && Means(s, |s|, toks, |toks|))
    || exists n: nat {:trigger Stop(toks, n)} :: Stop(toks, n) && Shortest(s, toks, n)
  }

  // ---- what is meant ----

  /** s matches the mask. */
  predicate Meaning(s: string, wild: string) {
    Means(s, |s|, Ordinary(wild), |wild|)
  }

  /** s ends where the search reaches one of the mask's stars. */
  ghost predicate EndsEarly(s: string, wild: string) {
    exists n: nat {:trigger Ordinary(wild)[n]} ::
      n < |wild| && Ordinary(wild)[n] == Star && Shortest(s, Ordinary(wild), n)
  }

  /** No star is followed by another, or by a question mark. */
  predicate Regular(wild: string) {
    forall i {:trigger wild[i]} :: 0 <= i < |wild| - 1 && wild[i] == '*' ==> wild[i + 1] != '*' && wild[i + 1] != '?'
  }

  lemma {:induction false} RegularRead(wild: string)
    requires Regular(wild)
    ensures Tokens(wild) == Ordinary(wild)
  {
    if wild != "" {
      var n := |wild| - 1;
      RegularRead(wild[..n]);
      assert Ordinary(wild) == Ordinary(wild[..n]) + [Letter(wild[n])];
      if n > 0 {
        assert wild[n - 1] == '*' ==> wild[n] != '*' && wild[n] != '?';
      }
    }
  }

  /** On regular masks the code is right but for two things: it accepts a string that ends where it reaches a star, and
      when the mask does not end in a star, it takes only the shortest match. */
  lemma Agreement(s: string, wild: string)
    requires Regular(wild)
    ensures Open(Ordinary(wild)) ==> (Accepts(s, Tokens(wild)) <==> Meaning(s, wild) || EndsEarly(s, wild))
    ensures !Open(Ordinary(wild)) ==>
      (Accepts(s, Tokens(wild)) <==> Shortest(s, Ordinary(wild), |wild|) || EndsEarly(s, wild))
  {
    hide Means;
    RegularRead(wild);
    var toks := Ordinary(wild);
    if EndsEarly(s, wild) {
      var n: nat :| n < |wild| && toks[n] == Star && Shortest(s, toks, n);
      assert Stop(toks, n);
    }
    assert Stop(toks, |wild|);
    if exists n: nat {:trigger Stop(toks, n)} :: Stop(toks, n) && Shortest(s, toks, n) {
      var n: nat :| Stop(toks, n) && Shortest(s, toks, n);
      assert n < |wild| ==> toks[n] == Star;
    }
  }

  // ---- matches of a part ----

  /** Tokens from..to take the characters of s from i on, one each. */
  predicate Fits(s: string, i: nat, toks: seq<Token>, from: nat, to: nat)
    requires from <= to <= |toks|
  {
    i + (to - from) <= |s| && forall k {:trigger toks[k]} :: from <= k < to ==> Takes(toks[k], s[i + k - from])
  }

  predicate NoStar(toks: seq<Token>, from: nat, to: nat)
    requires to <= |toks|
  {
    forall k :: from <= k < to ==> toks[k] != Star
  }

  /** What matches more tokens starts with something that matches fewer. */
  lemma {:induction false} MeansLess(s: string, l: nat, toks: seq<Token>, n: nat, e: nat) returns (k: nat)
    requires l <= |s| && e <= n <= |toks| && Means(s, l, toks, n)
    ensures k <= l && Means(s, k, toks, e)
    decreases n, l
  {
    if e == n {
      k := l;
    } else if toks[n - 1] == Star {
      if Means(s, l, toks, n - 1) {
        k := MeansLess(s, l, toks, n - 1, e);
      } else {
        k := MeansLess(s, l - 1, toks, n, e);
      }
    } else {
      k := MeansLess(s, l - 1, toks, n - 1, e);
    }
  }

  lemma {:induction false} StarTakes(s: string, k: nat, l: nat, toks: seq<Token>, n: nat)
    requires k <= l <= |s| && 0 < n <= |toks| && toks[n - 1] == Star && Means(s, k, toks, n - 1)
    ensures Means(s, l, toks, n)
    decreases l
  {
    if k < l {
      StarTakes(s, k, l - 1, toks, n);
    }
  }

  /** One of the first l + 1 starts of s matches the first n tokens. */
  ghost predicate Within(s: string, l: nat, toks: seq<Token>, n: nat)
    requires l <= |s| && n <= |toks|
  {
    exists k: nat {:trigger Means(s, k, toks, n)} :: k <= l && Means(s, k, toks, n)
  }

  lemma StarMeans(s: string, l: nat, toks: seq<Token>, j: nat)
    requires l <= |s| && j < |toks| && toks[j] == Star
    ensures Means(s, l, toks, j + 1) <==> Within(s, l, toks, j)
  {
    if Means(s, l, toks, j + 1) {
      var k := MeansLess(s, l, toks, j + 1, j);
      assert Within(s, l, toks, j);
    } else {
      forall k: nat {:trigger Means(s, k, toks, j)} | k <= l ensures !Means(s, k, toks, j) {
        if Means(s, k, toks, j) {
          StarTakes(s, k, l, toks, j + 1);
        }
      }
    }
  }

  /** A stretch without stars matches its own characters. */
  lemma {:induction false} StretchMeans(s: string, l: nat, toks: seq<Token>, from: nat, to: nat)
    requires l <= |s| && from <= to <= |toks| && NoStar(toks, from, to)
    ensures Means(s, l, toks, to) <==>
      l >= to - from && Fits(s, l - (to - from), toks, from, to) && Means(s, l - (to - from), toks, from)
  {
    if from < to {
      if l > 0 {
        StretchMeans(s, l - 1, toks, from, to - 1);
        if Takes(toks[to - 1], s[l - 1]) && l >= to - from && Fits(s, l - (to - from), toks, from, to - 1) {
          assert Fits(s, l - (to - from), toks, from, to);
        }
        if l >= to - from && Fits(s, l - (to - from), toks, from, to) {
          assert Takes(toks[to - 1], s[l - 1]);
        }
      }
    }
  }

  // ---- the search ----

  /** Nothing that s starts with matches the first n tokens. */
  ghost predicate Never(s: string, toks: seq<Token>, n: nat)
    requires n <= |toks|
  {
    forall l: nat {:trigger Means(s, l, toks, n)} :: l <= |s| ==> !Means(s, l, toks, n)
  }

  /** Something shorter than s that s starts with matches the first n tokens. */
  ghost predicate Sooner(s: string, toks: seq<Token>, n: nat)
    requires n <= |toks|
  {
    exists l: nat {:trigger Means(s, l, toks, n)} :: l < |s| && Means(s, l, toks, n)
  }

  /** The part before the star at j has its shortest match at base, before the end of s; so have all earlier stars. */
  ghost predicate Reached(s: string, toks: seq<Token>, j: nat, base: nat) {
    && j < |toks| && toks[j] == Star && base < |s| && Means(s, base, toks, j)
    && (forall l: nat {:trigger Means(s, l, toks, j)} :: l < base ==> !Means(s, l, toks, j))
    && forall n: nat {:trigger Stop(toks, n)} :: n <= j && Stop(toks, n) ==> Sooner(s, toks, n)
  }

  /** The stretch from..to fits nowhere between base and i. */
  ghost predicate NoFit(s: string, toks: seq<Token>, base: nat, i: nat, from: nat, to: nat)
    requires from <= to <= |toks|
  {
    forall x: nat {:trigger Fits(s, x, toks, from, to)} :: base <= x < i ==> !Fits(s, x, toks, from, to)
  }

  /** Where the next star is from n on, or the end. */
  function NextStop(toks: seq<Token>, n: nat): (e: nat)
    requires n <= |toks|
    ensures n <= e && Stop(toks, e) && NoStar(toks, n, e)
    decreases |toks| - n
  {
    if n == |toks| || toks[n] == Star then n else NextStop(toks, n + 1)
  }

  lemma StopIsNext(toks: seq<Token>, n: nat, e: nat)
    requires n <= e && Stop(toks, e) && NoStar(toks, n, e)
    ensures e == NextStop(toks, n)
  {
  }

  /** After a star, matches of the stretch behind it are places where it fits, from base on. */
  lemma BehindStar(s: string, toks: seq<Token>, j: nat, base: nat, l: nat, e: nat)
    requires Reached(s, toks, j, base) && l <= |s| && j < e <= |toks| && NoStar(toks, j + 1, e)
    ensures Means(s, l, toks, e) <==>
      l >= base + (e - j - 1) && Fits(s, l - (e - j - 1), toks, j + 1, e)
  {
    hide Fits;
    StretchMeans(s, l, toks, j + 1, e);
    if l >= e - j - 1 {
      var at: nat := l - (e - j - 1);
      StarMeans(s, at, toks, j);
      if at >= base {
        assert Means(s, base, toks, j);
        assert Means(s, at, toks, j + 1);
      }
    }
  }

  /** If the part that the search is in never matches, the mask is not accepted. */
  lemma Rejects(s: string, toks: seq<Token>, e: nat)
    requires Stop(toks, e) && Never(s, toks, e)
    requires forall n: nat {:trigger Stop(toks, n)} :: n < e && Stop(toks, n) ==> Sooner(s, toks, n)
    ensures !Accepts(s, toks)
  {
    hide Means;
    forall n: nat | e <= n <= |toks| ensures Never(s, toks, n) {
      forall l: nat | l <= |s| ensures !Means(s, l, toks, n) {
        if Means(s, l, toks, n) {
          var k := MeansLess(s, l, toks, n, e);
        }
      }
    }
    assert Never(s, toks, |toks|);
    forall n: nat | Stop(toks, n) ensures !Shortest(s, toks, n) {
      if n < e {
        assert Sooner(s, toks, n);
      } else {
        assert Never(s, toks, n);
      }
    }
  }

  lemma OnlyThese(toks: seq<Token>, j: nat, e: nat)
    requires j < e <= |toks| && NoStar(toks, j + 1, e)
    ensures forall n: nat :: n < e && Stop(toks, n) ==> n <= j
  {
  }

  /** The stretch behind star j fits nowhere: the mask is not accepted. */
  lemma FitsNowhere(s: string, toks: seq<Token>, j: nat, base: nat, i: nat)
    requires Reached(s, toks, j, base) && NoFit(s, toks, base, i, j + 1, NextStop(toks, j + 1))
    requires i + (NextStop(toks, j + 1) - j - 1) > |s|
    ensures !Accepts(s, toks)
  {
    hide Means, Fits;
    var e := NextStop(toks, j + 1);
    forall l: nat | l <= |s| ensures !Means(s, l, toks, e) {
      BehindStar(s, toks, j, base, l, e);
    }
    OnlyThese(toks, j, e);
    Rejects(s, toks, e);
  }

  /** The stretch behind star j fits at i and not sooner: it ends in the shortest match. */
  lemma Arrived(s: string, toks: seq<Token>, j: nat, base: nat, i: nat, e: nat)
    requires Reached(s, toks, j, base) && base <= i && j < e && e == NextStop(toks, j + 1)
    requires NoFit(s, toks, base, i, j + 1, e) && Fits(s, i, toks, j + 1, e)
    ensures var l := i + (e - j - 1);
      && Means(s, l, toks, e)
      && (forall k: nat {:trigger Means(s, k, toks, e)} :: k < l ==> !Means(s, k, toks, e))
      && (l < |s| && e < |toks| ==> Reached(s, toks, e, l))
      && (l == |s| ==> Accepts(s, toks))
      && (l < |s| && e == |toks| && !Open(toks) ==> !Accepts(s, toks))
  {
    hide Means, Fits;
    var l := i + (e - j - 1);
    FitsInside(s, i, toks, j + 1, e);
    forall k: nat | k <= l ensures Means(s, k, toks, e) <==> k == l {
      BehindStar(s, toks, j, base, k, e);
    }
    assert Means(s, l, toks, e);
    OnlyThese(toks, j, e);
    if l == |s| {
      assert Stop(toks, e) && Shortest(s, toks, e);
    } else {
      assert Sooner(s, toks, e);
    }
  }

  lemma FitsInside(s: string, i: nat, toks: seq<Token>, from: nat, to: nat)
    requires from <= to <= |toks| && Fits(s, i, toks, from, to)
    ensures i + (to - from) <= |s|
  {
  }

  // ---- before the first star ----

  /** Before any star, characters and tokens go in step. */
  lemma InStep(s: string, l: nat, toks: seq<Token>, e: nat)
    requires l <= |s| && e <= |toks| && NoStar(toks, 0, e)
    ensures Means(s, l, toks, e) <==> l == e && Fits(s, 0, toks, 0, e)
  {
    hide Fits;
    StretchMeans(s, l, toks, 0, e);
  }

  /** The string does not start as the mask does. */
  lemma FailsAtOnce(s: string, toks: seq<Token>, e: nat)
    requires e == NextStop(toks, 0) && !Fits(s, 0, toks, 0, e)
    ensures !Accepts(s, toks)
  {
    hide Means, Fits;
    forall l: nat | l <= |s| ensures !Means(s, l, toks, e) {
      InStep(s, l, toks, e);
    }
    Rejects(s, toks, e);
  }

  lemma NotOpen(toks: seq<Token>)
    requires NoStar(toks, 0, |toks|)
    ensures !Open(toks)
  {
  }

  /** The string starts as the mask does, up to its first star or its end. */
  lemma FirstArrived(s: string, toks: seq<Token>, e: nat)
    requires e == NextStop(toks, 0) && Fits(s, 0, toks, 0, e)
    ensures e <= |s|
    ensures e == |s| ==> Accepts(s, toks)
    ensures e < |s| && e < |toks| ==> Reached(s, toks, e, e)
    ensures e < |s| && e == |toks| ==> !Accepts(s, toks)
  {
    hide Means, Fits;
    FitsInside(s, 0, toks, 0, e);
    forall l: nat | l <= |s| ensures Means(s, l, toks, e) <==> l == e {
      InStep(s, l, toks, e);
    }
    assert Means(s, e, toks, e);
    if e == |s| {
      assert Stop(toks, e) && Shortest(s, toks, e);
    } else {
      assert Sooner(s, toks, e);
      if e == |toks| {
        NotOpen(toks);
        assert forall n: nat :: Stop(toks, n) ==> n == e;
      }
    }
  }

  // ---- the matcher ----

  /** After a star, skip to just past the next ch; 0 when the string ends first. */
  method ScanFor(s: string, from: nat, ch: char) returns (test: nat)
    requires from < |s|
    ensures test == 0 ==> forall i :: from <= i < |s| ==> s[i] != ch
    ensures test != 0 ==> from < test <= |s| && s[test - 1] == ch && forall i :: from <= i < test - 1 ==> s[i] != ch
  {
    test := from + 1;
    var ch1 := s[from];
    while ch != ch1
      invariant from < test <= |s| && ch1 == s[test - 1]
      invariant forall i :: from <= i < test - 1 ==> s[i] != ch
      decreases |s| - test
    {
      if test == |s| {
        return 0;
      }
      ch1 := s[test];
      test := test + 1;
    }
  }

  /** The search has matched tokens up to at, the last ones behind the star at j from place i on; the stretch behind
      that star fits nowhere sooner. */
  ghost predicate Trying(s: string, toks: seq<Token>, j: nat, base: nat, i: int, at: nat) {
    && Reached(s, toks, j, base) && base <= i && j + 1 < at <= NextStop(toks, j + 1)
    && Fits(s, i, toks, j + 1, at) && NoFit(s, toks, base, i, j + 1, NextStop(toks, j + 1))
  }

  /** One more character matches. */
  lemma Further(s: string, i: nat, toks: seq<Token>, from: nat, at: nat)
    requires from <= at < |toks| && Fits(s, i, toks, from, at) && i + (at - from) < |s|
    requires Takes(toks[at], s[i + (at - from)])
    ensures Fits(s, i, toks, from, at + 1)
  {
  }

  /** A character that does not match rules out place i. */
  lemma NotHere(s: string, i: nat, toks: seq<Token>, from: nat, at: nat, to: nat)
    requires from <= at < to <= |toks| && i + (at - from) < |s| && !Takes(toks[at], s[i + (at - from)])
    ensures !Fits(s, i, toks, from, to)
  {
  }

  lemma TooShort(s: string, i: nat, toks: seq<Token>, from: nat, to: nat)
    requires from <= to <= |toks| && i + (to - from) > |s|
    ensures !Fits(s, i, toks, from, to)
  {
  }

  /** The places that the scan for the first character passes over. */
  lemma PassedOver(s: string, toks: seq<Token>, base: nat, p: nat, q: nat, from: nat, to: nat)
    requires from < to <= |toks| && NoFit(s, toks, base, p, from, to) && p <= q <= |s|
    requires forall x :: p <= x < q ==> !Takes(toks[from], s[x])
    ensures NoFit(s, toks, base, q, from, to)
  {
    hide Fits;
    forall x: nat | base <= x < q ensures !Fits(s, x, toks, from, to) {
      if x >= p {
        NotHere(s, x, toks, from, from, to);
      }
    }
  }

  lemma OpenAccepts(s: string, toks: seq<Token>, j: nat, base: nat)
    requires Reached(s, toks, j, base) && j + 1 == |toks|
    ensures Accepts(s, toks)
  {
    StarMeans(s, |s|, toks, j);
    assert Within(s, |s|, toks, j);
  }

  /** What the code sees in the mask where it is not right behind a star. */
  lemma ReadHere(wild: string, from: nat, at: nat)
    requires from <= at < |wild| && NoStar(Tokens(wild), from, at) && (from == at ==> at == 0)
    ensures Tokens(wild)[at] == Letter(wild[at])
    ensures wild[at] != '*' ==> at < NextStop(Tokens(wild), from)
  {
    Onward(Tokens(wild), from, at);
    assert wild[at] != '*' ==> Tokens(wild)[at] != Star;
  }

  /** And where it is. */
  lemma ReadBehind(wild: string, j: nat)
    requires j < |wild| && Tokens(wild)[j] == Star
    ensures wild[j] == '*'
    ensures j + 1 < |wild| ==>
      Tokens(wild)[j + 1] == Lit(wild[j + 1]) && j + 1 < NextStop(Tokens(wild), j + 1)
  {
  }

  lemma ReachedStar(s: string, toks: seq<Token>, j: nat, base: nat)
    requires Reached(s, toks, j, base)
    ensures toks[j] == Star
  {
  }

  /** Where the next star is does not depend on how far one has looked. */
  lemma Onward(toks: seq<Token>, from: nat, at: nat)
    requires from <= at <= |toks| && NoStar(toks, from, at)
    ensures NextStop(toks, from) == NextStop(toks, at)
    ensures at <= NextStop(toks, from)
  {
    StopIsNext(toks, from, NextStop(toks, at));
  }

  lemma FreshStar(s: string, toks: seq<Token>, base: nat, from: nat, to: nat)
    requires from <= to <= |toks|
    ensures NoFit(s, toks, base, base, from, to)
  {
  }

  lemma Single(s: string, i: nat, toks: seq<Token>, from: nat)
    requires from < |toks| && i < |s| && Takes(toks[from], s[i])
    ensures Fits(s, i, toks, from, from + 1)
  {
  }

  lemma RuledOut(s: string, toks: seq<Token>, base: nat, tried: nat, i: nat, from: nat, to: nat)
    requires from <= to <= |toks| && NoFit(s, toks, base, i, from, to) && !Fits(s, i, toks, from, to) && tried <= i + 1
    ensures NoFit(s, toks, base, tried, from, to)
  {
  }

  /** The search stands at s[test] and wild[at]: before the first star; or about to take up the star again, at a place
      not tried yet; or partway through the stretch behind it. */
  ghost predicate Searching(s: string, wild: string, star: int, base: nat, tried: nat, test: nat, at: nat,
                            fallSrc: int, fallWild: int) {
    var toks := Tokens(wild);
    && test <= |s| && at <= |wild| && -1 <= star < |wild|
    && (if star < 0 then fallWild < 0 && test == at && NoStar(toks, 0, at) && Fits(s, 0, toks, 0, at)
        else if fallWild < 0 then
          && at == star && test == tried < |s| && base <= test && Reached(s, toks, star, base)
          && NoFit(s, toks, base, test, star + 1, NextStop(toks, star + 1))
        else
          && fallWild == star && fallSrc == tried && star + 1 < at && base <= tried
          && tried <= test - (at - star - 1) + 1 && Trying(s, toks, star, base, test - (at - star - 1), at))
  }

  /** The string ends before the first star. */
  lemma EndsBefore(s: string, toks: seq<Token>)
    requires |s| <= |toks| && NoStar(toks, 0, |s|) && Fits(s, 0, toks, 0, |s|)
    ensures Accepts(s, toks) <==> |s| == NextStop(toks, 0)
  {
    hide Means, Fits, Accepts;
    var e := NextStop(toks, 0);
    Onward(toks, 0, |s|);
    if |s| == e {
      FirstArrived(s, toks, e);
    } else {
      TooShort(s, 0, toks, 0, e);
      FailsAtOnce(s, toks, e);
    }
  }

  /** The string ends behind a star. */
  lemma EndsBehind(s: string, toks: seq<Token>, star: nat, base: nat, at: nat)
    requires star + 1 < at && Trying(s, toks, star, base, |s| - (at - star - 1), at)
    ensures Accepts(s, toks) <==> at == NextStop(toks, star + 1)
  {
    hide Means, Fits, Accepts, Reached, NoFit;
    var e, i := NextStop(toks, star + 1), |s| - (at - star - 1);
    if at == e {
      Arrived(s, toks, star, base, i, e);
    } else {
      FitsNowhere(s, toks, star, base, i);
    }
  }

  lemma StopHere(wild: string, from: nat, at: nat)
    requires from <= at <= |wild| && NoStar(Tokens(wild), from, at) && (from == at ==> at == 0)
    ensures at == NextStop(Tokens(wild), from) <==> at == |wild| || wild[at] == '*'
  {
    Onward(Tokens(wild), from, at);
    if at < |wild| {
      ReadHere(wild, from, at);
    }
  }

  /** The string ends. */
  lemma AtEnd(s: string, wild: string, star: int, base: nat, tried: nat, at: nat, fallSrc: int, fallWild: int)
    requires Searching(s, wild, star, base, tried, |s|, at, fallSrc, fallWild)
    ensures Accepts(s, Tokens(wild)) <==> at == |wild| || wild[at] == '*'
  {
    hide Means, Fits, Accepts, Reached, NoFit, Tokens;
    if star < 0 {
      EndsBefore(s, Tokens(wild));
      StopHere(wild, 0, at);
    } else {
      EndsBehind(s, Tokens(wild), star, base, at);
      BeforeStop(Tokens(wild), star + 1, at);
      StopHere(wild, star + 1, at);
    }
  }

  lemma BeforeStop(toks: seq<Token>, from: nat, at: nat)
    requires from <= |toks| && from <= at <= NextStop(toks, from)
    ensures NoStar(toks, from, at)
  {
  }

  /** The mask ends before the string does. */
  lemma MaskEnds(s: string, wild: string, star: int, base: nat, tried: nat, test: nat, fallSrc: int, fallWild: int)
    requires Searching(s, wild, star, base, tried, test, |wild|, fallSrc, fallWild) && test < |s|
    ensures !Accepts(s, Tokens(wild))
  {
    hide Means, Fits, Accepts, Reached, NoFit, Tokens;
    var toks, from := Tokens(wild), if star < 0 then 0 else star + 1;
    Onward(toks, from, |wild|);
    if star < 0 {
      FirstArrived(s, toks, |wild|);
    } else {
      Arrived(s, toks, star, base, test - (|wild| - from), |wild|);
    }
  }

  /** A star, reached for the first time or again. */
  lemma AtStar(s: string, wild: string, star: int, base: nat, tried: nat, test: nat, at: nat, fallSrc: int,
               fallWild: int) returns (start: nat)
    requires Searching(s, wild, star, base, tried, test, at, fallSrc, fallWild) && test < |s|
    requires at < |wild| && wild[at] == '*'
    ensures star <= at && (star == at ==> fallWild < 0 && test == tried && start == base)
    ensures Reached(s, Tokens(wild), at, start) && start <= test
    ensures NoFit(s, Tokens(wild), start, test, at + 1, NextStop(Tokens(wild), at + 1))
    ensures at + 1 == |wild| ==> Accepts(s, Tokens(wild))
  {
    hide Means, Fits, Accepts, Reached, NoFit, Tokens;
    var toks, from := Tokens(wild), if star < 0 then 0 else star + 1;
    if star < 0 || fallWild >= 0 {
      Onward(toks, from, at);
      ReadHere(wild, from, at);
      start := test;
      FreshStar(s, toks, start, at + 1, NextStop(toks, at + 1));
      if star < 0 {
        FirstArrived(s, toks, at);
      } else {
        Arrived(s, toks, star, base, test - (at - from), at);
      }
    } else {
      start := base;
    }
    if at + 1 == |wild| {
      OpenAccepts(s, toks, at, start);
    }
  }

  /** The first character behind the star is not in the rest of the string. */
  lemma NotFound(s: string, wild: string, star: nat, base: nat, test: nat)
    requires star + 1 < |wild| && Reached(s, Tokens(wild), star, base) && base <= test < |s|
    requires NoFit(s, Tokens(wild), base, test, star + 1, NextStop(Tokens(wild), star + 1))
    requires forall x :: test <= x < |s| ==> s[x] != wild[star + 1]
    ensures !Accepts(s, Tokens(wild))
  {
    hide Means, Fits, Accepts, NoFit, Tokens;
    var toks := Tokens(wild);
    ReadBehind(wild, star);
    PassedOver(s, toks, base, test, |s|, star + 1, NextStop(toks, star + 1));
    FitsNowhere(s, toks, star, base, |s|);
  }

  /** It is, first at q. */
  lemma Found(s: string, wild: string, star: nat, base: nat, test: nat, q: nat)
    requires star + 1 < |wild| && Reached(s, Tokens(wild), star, base) && base <= test <= q < |s|
    requires NoFit(s, Tokens(wild), base, test, star + 1, NextStop(Tokens(wild), star + 1))
    requires s[q] == wild[star + 1] && forall x :: test <= x < q ==> s[x] != wild[star + 1]
    ensures Searching(s, wild, star, base, test + 1, q + 1, star + 2, test + 1, star)
  {
    hide Means, Fits, Accepts, NoFit, Tokens;
    var toks := Tokens(wild);
    ReadBehind(wild, star);
    PassedOver(s, toks, base, test, q, star + 1, NextStop(toks, star + 1));
    Single(s, q, toks, star + 1);
  }

  lemma Mismatch(s: string, wild: string, star: int, base: nat, tried: nat, test: nat, at: nat, fallSrc: int,
                 fallWild: int)
    requires Searching(s, wild, star, base, tried, test, at, fallSrc, fallWild) && test < |s|
    requires at < |wild| && wild[at] != '*' && wild[at] != '?' && s[test] != wild[at]
    ensures fallWild < 0 ==> !Accepts(s, Tokens(wild))
    ensures fallWild >= 0 ==> 0 <= fallSrc < |s| && Searching(s, wild, star, base, tried, fallSrc, fallWild, -1, -1)
  {
    hide Means, Fits, Accepts, Reached, NoFit, Tokens, NextStop;
    var toks, from := Tokens(wild), if star < 0 then 0 else star + 1;
    if fallWild < 0 && star >= 0 {
      ReachedStar(s, toks, star, base);
      ReadBehind(wild, star);
    } else {
      ReadHere(wild, from, at);
      var i, e := test - (at - from), NextStop(toks, from);
      NotHere(s, i, toks, from, at, e);
      if fallWild >= 0 {
        RuledOut(s, toks, base, tried, i, from, e);
      } else {
        FailsAtOnce(s, toks, e);
      }
    }
  }

  lemma Match(s: string, wild: string, star: int, base: nat, tried: nat, test: nat, at: nat, fallSrc: int,
              fallWild: int)
    requires Searching(s, wild, star, base, tried, test, at, fallSrc, fallWild) && test < |s|
    requires at < |wild| && wild[at] != '*' && (wild[at] == '?' || s[test] == wild[at])
    ensures Searching(s, wild, star, base, tried, test + 1, at + 1, fallSrc, fallWild)
  {
    hide Means, Fits, Accepts, Reached, NoFit, Tokens, Takes, NextStop;
    var toks, from := Tokens(wild), if star < 0 then 0 else star + 1;
    if fallWild < 0 && star >= 0 {
      ReachedStar(s, toks, star, base);
      ReadBehind(wild, star);
    } else {
      ReadHere(wild, from, at);
      TakesLetter(wild[at], s[test]);
      if star < 0 {
        Further(s, 0, toks, 0, at);
      } else {
        TryingOn(s, toks, star, base, test - (at - from), at);
      }
    }
  }

  lemma TakesLetter(w: char, c: char)
    requires w != '*' && (w == '?' || c == w)
    ensures Takes(Letter(w), c)
  {
  }

  lemma TryingOn(s: string, toks: seq<Token>, j: nat, base: nat, i: nat, at: nat)
    requires Trying(s, toks, j, base, i, at) && at < NextStop(toks, j + 1)
    requires i + (at - j - 1) < |s| && Takes(toks[at], s[i + (at - j - 1)])
    ensures Trying(s, toks, j, base, i, at + 1)
  {
    hide Fits, Reached, NoFit;
    Further(s, i, toks, j + 1, at);
  }

  lemma Begin(s: string, wild: string)
    ensures Searching(s, wild, -1, 0, 0, 0, 0, -1, -1)
  {
  }

  method Search(s: string, wild: string) returns (r: bool)
    ensures r <==> Accepts(s, Tokens(wild))
  {
    hide *;
    Begin(s, wild);
    var test, at := 0, 0;
    var fallSrc, fallWild: int := -1, -1;
    ghost var star: int, base: nat, tried: nat := -1, 0, 0;
    while true
      invariant 0 <= test <= |s| && 0 <= at <= |wild| && -1 <= star < |wild| && tried <= |s|
      invariant fallWild >= 0 ==> fallWild == star && fallSrc == tried
      invariant Searching(s, wild, star, base, tried, test, at, fallSrc, fallWild)
      decreases |wild| - star, |s| - tried, if fallWild >= 0 then 1 else 0, |s| - test
    {
      if test == |s| {
        AtEnd(s, wild, star, base, tried, at, fallSrc, fallWild);
        r := at == |wild| || wild[at] == '*';
        return;
      }
      var ch1 := s[test];
      test := test + 1;
      if at == |wild| {
        MaskEnds(s, wild, star, base, tried, test - 1, fallSrc, fallWild);
        return false;
      }
      var ch2 := wild[at];
      at := at + 1;
      if ch2 == '*' {
        base := AtStar(s, wild, star, base, tried, test - 1, at - 1, fallSrc, fallWild);
        fallWild := at - 1;
        fallSrc := test;
        star, tried := at - 1, test;
        if at == |wild| {
          return true;
        }
        ch2 := wild[at];
        at := at + 1;
        var from := test - 1;
        test := ScanFor(s, from, ch2);
        if test == 0 {
          NotFound(s, wild, star, base, from);
          return false;
        }
        Found(s, wild, star, base, from, test - 1);
      } else if ch2 != '?' && ch1 != ch2 {
        Mismatch(s, wild, star, base, tried, test - 1, at - 1, fallSrc, fallWild);
        if fallWild >= 0 {
          at, test := fallWild, fallSrc;
          fallWild, fallSrc := -1, -1;
        } else {
          return false;
        }
      } else {
        Match(s, wild, star, base, tried, test - 1, at - 1, fallSrc, fallWild);
      }
    }
  }

  // ---- masks of the shape *lit*, and the first star ----

  predicate Plain(lit: string) {
    forall i :: 0 <= i < |lit| ==> lit[i] != '*' && lit[i] != '?'
  }

  /** lit stands in s at index i. */
  predicate At(lit: string, s: string, i: nat) {
    i + |lit| <= |s| && forall k :: 0 <= k < |lit| ==> s[i + k] == lit[k]
  }

  predicate Occurs(lit: string, s: string) {
    exists i: nat {:trigger At(lit, s, i)} :: i <= |s| && At(lit, s, i)
  }

  /** A mask of the shape *lit*. */
  predicate Contains(wild: string, lit: string) {
    lit != "" && Plain(lit) && wild == "*" + lit + "*"
  }

  lemma Shape(wild: string, lit: string)
    requires Contains(wild, lit)
    ensures var toks := Tokens(wild);
      && |toks| == |lit| + 2 && toks[0] == Star && toks[|lit| + 1] == Star
      && (forall i {:trigger toks[i]} :: 1 <= i <= |lit| ==> toks[i] == Lit(lit[i - 1]))
      && forall n :: Stop(toks, n) <==> n == 0 || n == |lit| + 1 || n == |lit| + 2
  {
    assert forall i {:trigger wild[i]} :: 1 <= i <= |lit| ==> wild[i] == lit[i - 1];
    var toks := Tokens(wild);
    forall i | 1 <= i <= |lit| ensures toks[i] == Lit(lit[i - 1]) {
      assert wild[i] == lit[i - 1];
    }
  }

  /** A mask *lit* accepts the nonempty strings in which lit occurs. */
  lemma AcceptsContaining(s: string, wild: string, lit: string)
    requires Contains(wild, lit) && s != ""
    ensures Accepts(s, Tokens(wild)) <==> Occurs(lit, s)
  {
    hide Tokens, Fits, At, Contains;
    var toks, n := Tokens(wild), |lit| + 1;
    Shape(wild, lit);
    FromStart(s, toks);
    forall l: nat | l <= |s|
      ensures Means(s, l, toks, n) <==> l >= |lit| && At(lit, s, l - |lit|)
    {
      BehindStar(s, toks, 0, 0, l, n);
      if l >= |lit| {
        FitsIsAt(s, l - |lit|, toks, lit);
      }
    }
    StarMeans(s, |s|, toks, n);
    assert !Shortest(s, toks, 0);
    hide Means;
    if Occurs(lit, s) {
      var i: nat :| i <= |s| && At(lit, s, i);
      AtInside(lit, s, i);
      assert Means(s, i + |lit|, toks, n);
    }
    if Within(s, |s|, toks, n) {
      var l: nat :| l <= |s| && Means(s, l, toks, n);
      assert At(lit, s, l - |lit|);
    }
    assert Shortest(s, toks, n) ==> Within(s, |s|, toks, n);
    assert Shortest(s, toks, n + 1) ==> Means(s, |s|, toks, n + 1);
  }

  lemma AtInside(lit: string, s: string, i: nat)
    requires At(lit, s, i)
    ensures i + |lit| <= |s|
  {
  }

  lemma FromStart(s: string, toks: seq<Token>)
    requires s != "" && toks != [] && toks[0] == Star
    ensures Reached(s, toks, 0, 0)
  {
    assert Means(s, 0, toks, 0);
    assert Sooner(s, toks, 0);
  }

  lemma FitsIsAt(s: string, i: nat, toks: seq<Token>, lit: string)
    requires |toks| > |lit| && forall k {:trigger toks[k]} :: 1 <= k <= |lit| ==> toks[k] == Lit(lit[k - 1])
    ensures Fits(s, i, toks, 1, |lit| + 1) <==> At(lit, s, i)
  {
    if Fits(s, i, toks, 1, |lit| + 1) {
      forall k | 0 <= k < |lit| ensures s[i + k] == lit[k] {
        assert Takes(toks[k + 1], s[i + (k + 1) - 1]);
      }
    }
  }

  /** Where a mask's first star is, or its end. */
  function FirstStar(wild: string): (n: nat)
    ensures n <= |wild| && (n == |wild| || wild[n] == '*') && forall i :: 0 <= i < n ==> wild[i] != '*'
  {
    if wild == "" || wild[0] == '*' then 0 else 1 + FirstStar(wild[1..])
  }

  /** The string starts as the first n characters of the mask say. */
  predicate Starts(s: string, wild: string, n: nat)
    requires n <= |wild|
  {
    n <= |s| && forall i :: 0 <= i < n ==> wild[i] == '?' || s[i] == wild[i]
  }

  /** Up to the first star, the mask is taken literally; a string that ends there is accepted. */
  lemma ToFirstStar(s: string, wild: string)
    ensures Accepts(s, Tokens(wild)) ==> Starts(s, wild, FirstStar(wild))
    ensures |s| == FirstStar(wild) && Starts(s, wild, |s|) ==> Accepts(s, Tokens(wild))
    ensures FirstStar(wild) == |wild| ==>
      (Accepts(s, Tokens(wild)) <==> |s| == |wild| && Starts(s, wild, |wild|))
  {
    hide Means, Accepts, Fits, Starts, Tokens;
    var toks, f := Tokens(wild), FirstStar(wild);
    FitsIsStarts(s, wild, f);
    StopIsNext(toks, 0, f);
    if Starts(s, wild, f) {
      FirstArrived(s, toks, f);
    } else {
      FailsAtOnce(s, toks, f);
    }
  }

  lemma FitsIsStarts(s: string, wild: string, f: nat)
    requires f <= |wild| && forall i :: 0 <= i < f ==> wild[i] != '*'
    ensures NoStar(Tokens(wild), 0, f) && (Fits(s, 0, Tokens(wild), 0, f) <==> Starts(s, wild, f))
    ensures |Tokens(wild)| == |wild| && (f < |wild| && wild[f] == '*' ==> Tokens(wild)[f] == Star)
  {
    var toks := Tokens(wild);
    forall i | 0 <= i < f ensures toks[i] == Letter(wild[i]) && toks[i] != Star {
    }
    if Fits(s, 0, toks, 0, f) {
      forall i | 0 <= i < f ensures wild[i] == '?' || s[i] == wild[i] {
        assert Takes(toks[i], s[0 + i - 0]);
      }
    }
  }

  /** wildmatch. It ends on every string and mask although both cursors back up: the last star only moves forward,
      then the place it was last tried, then (a star being tried only once per place) the position in the string.
      What it accepts is exact for every mask; on regular masks, in terms of what is meant. */
  method Matches(s: string, wild: string) returns (r: bool)
    ensures r <==> Accepts(s, Tokens(wild))
    ensures Regular(wild) && Open(Ordinary(wild)) ==> (r <==> Meaning(s, wild) || EndsEarly(s, wild))
    ensures Regular(wild) && !Open(Ordinary(wild)) ==>
      (r <==> Shortest(s, Ordinary(wild), |wild|) || EndsEarly(s, wild))
    ensures forall lit :: Contains(wild, lit) && s != "" ==> (r <==> Occurs(lit, s))
    ensures r ==> Starts(s, wild, FirstStar(wild))
    ensures |s| == FirstStar(wild) && Starts(s, wild, |s|) ==> r
    ensures FirstStar(wild) == |wild| ==> (r <==> |s| == |wild| && Starts(s, wild, |wild|))
  {
    hide *;
    r := Search(s, wild);
    if Regular(wild) {
      Agreement(s, wild);
    }
    forall lit | Contains(wild, lit) && s != "" ensures r <==> Occurs(lit, s) {
      AcceptsContaining(s, wild, lit);
    }
    ToFirstStar(s, wild);
  }

  /** The empty string is accepted by a mask *lit* although lit does not occur in it, and "a" by "a*b". */
  lemma WronglyAccepted()
    ensures Accepts("", Tokens("*x*")) && !Meaning("", "*x*") && Contains("*x*", "x") && !Occurs("x", "")
    ensures Accepts("a", Tokens("a*b")) && !Meaning("a", "a*b")
  {
    hide Accepts, Tokens;
    FirstStarAt("*x*", 0);
    ToFirstStar("", "*x*");
    assert !Occurs("x", "");
    assert "*x*" == "*" + "x" + "*";
    FirstStarAt("a*b", 1);
    ToFirstStar("a", "a*b");
    assert Ordinary("*x*") == [Star, Lit('x'), Star] && Ordinary("a*b") == [Lit('a'), Star, Lit('b')];
    MeansNot();
  }

  /** "aba" is rejected by "*a", as the search stops at the first a; and "a" by "*?" and "**", where the character
      behind the star is looked for as it stands. */
  lemma WronglyRejected()
    ensures !Accepts("aba", Tokens("*a")) && Meaning("aba", "*a")
    ensures !Accepts("a", Tokens("*?")) && Meaning("a", "*?")
    ensures !Accepts("a", Tokens("**")) && Meaning("a", "**")
  {
    hide Tokens;
    ReadTwo("*a");
    TwoStops([Star, Lit('a')]);
    FoundSooner("aba", 'a', 1);
    ReadTwo("*?");
    TwoStops([Star, Lit('?')]);
    ReadTwo("**");
    TwoStops([Star, Lit('*')]);
    assert Ordinary("*a") == [Star, Lit('a')] && Ordinary("*?") == [Star, Any] && Ordinary("**") == [Star, Star];
    MeansSteps();
  }

  lemma FirstStarAt(wild: string, n: nat)
    requires n <= |wild| && (n == |wild| || wild[n] == '*') && forall i :: 0 <= i < n ==> wild[i] != '*'
    ensures n == FirstStar(wild)
  {
  }

  lemma ReadTwo(wild: string)
    requires |wild| == 2 && wild[0] == '*'
    ensures Tokens(wild) == [Star, Lit(wild[1])]
  {
  }

  lemma TwoStops(toks: seq<Token>)
    requires |toks| == 2 && toks[0] == Star && toks[1] != Star
    ensures !Open(toks) && forall n: nat :: Stop(toks, n) <==> n == 0 || n == 2
  {
  }

  lemma FoundSooner(s: string, c: char, l: nat)
    requires 0 < l < |s| && s[l - 1] == c
    ensures !Shortest(s, [Star, Lit(c)], 2)
  {
    var toks := [Star, Lit(c)];
    StarTakes(s, 0, l - 1, toks, 1);
    assert Means(s, l, toks, 2);
  }

  lemma MeansNot()
    ensures !Means("", 0, [Star, Lit('x'), Star], 3) && !Means("a", 1, [Lit('a'), Star, Lit('b')], 3)
  {
    assert !Means("", 0, [Star, Lit('x'), Star], 2);
  }

  lemma MeansSteps()
    ensures Means("aba", 3, [Star, Lit('a')], 2) && Means("a", 1, [Star, Any], 2) && Means("a", 1, [Star, Star], 2)
  {
    StarTakes("aba", 0, 2, [Star, Lit('a')], 1);
    StarTakes("a", 0, 1, [Star, Star], 1);
    StarTakes("a", 1, 1, [Star, Star], 2);
    StarTakes("a", 0, 0, [Star, Any], 1);
  }
}
