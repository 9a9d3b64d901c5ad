/** Slugs for picture URLs: lower-case the name, turn every run of
    characters outside [a-z0-9] into one hyphen, strip hyphens from both
    ends. */
module ImageHelper {
  import opened Models

  const ImageUrlPrefix: string := "https://picsum.photos/seed/"
  const ImageUrlSuffix: string := "/120/120"

  predicate IsAlnum(c: char) {
    'a' <= c <= 'z' || '0' <= c <= '9'
  }

  predicate IsSlugChar(c: char) {
    IsAlnum(c) || c == '-'
  }

  ghost predicate AllSlugChars(s: string) {
    forall i :: 0 <= i < |s| ==> IsSlugChar(s[i])
  }

  ghost predicate NoDoubleHyphen(s: string) {
    forall i :: 0 <= i < |s| - 1 ==> !(s[i] == '-' && s[i + 1] == '-')
  }

  /** The [a-z0-9] characters of `s`, in order. */
  function Alnums(s: string): string {
    if s == [] then []
    else (if IsAlnum(s[0]) then [s[0]] else []) + Alnums(s[1..])
  }

  /** Drops the leading run of characters outside [a-z0-9]. */
  function SkipNonAlnum(s: string): (r: string)
    ensures |r| <= |s|
    ensures r == [] || IsAlnum(r[0])
    ensures Alnums(r) == Alnums(s)
  {
    if s == [] || IsAlnum(s[0]) then s else SkipNonAlnum(s[1..])
  }

  /** What `SkipNonAlnum` drops: the result is the suffix of `s` that starts
      at its first [a-z0-9] character. */
  lemma {:induction false} SkipNonAlnumSuffix(s: string)
    ensures var r := SkipNonAlnum(s);
      && r == s[|s| - |r|..]
      && forall i :: 0 <= i < |s| - |r| ==> !IsAlnum(s[i])
  {
    if s != [] && !IsAlnum(s[0]) {
      var r := SkipNonAlnum(s[1..]);
      SkipNonAlnumSuffix(s[1..]);
      assert s[1..][|s| - 1 - |r|..] == s[|s| - |r|..];
      assert forall i :: 0 < i < |s| ==> s[i] == s[1..][i - 1];
    }
  }

  /** Only [a-z0-9] characters. */
  ghost predicate AllAlnum(w: string) {
    forall i :: 0 <= i < |w| ==> IsAlnum(w[i])
  }

  /** A non-empty string of [a-z0-9] characters. */
  ghost predicate IsWord(w: string) {
    w != [] && AllAlnum(w)
  }

  /** The leading run of [a-z0-9] characters of `s`. */
  function Run(s: string): (w: string)
    ensures |w| <= |s| && w == s[..|w|]
    ensures AllAlnum(w)
    ensures |w| < |s| ==> !IsAlnum(s[|w|])
    ensures w == [] <==> s == [] || !IsAlnum(s[0])
  {
    if s != [] && IsAlnum(s[0]) then
      var w := Run(s[1..]);
      assert s[..|w| + 1] == [s[0]] + w;
      [s[0]] + w
    else []
  }

  /** The maximal runs of [a-z0-9] characters of `s`, in order. */
  function Words(s: string): seq<string>
    decreases |s|
  {
    var t := SkipNonAlnum(s);
    if t == [] then []
    else
      var w := Run(t);
      [w] + Words(t[|w|..])
  }

  /** Every entry of `Words(s)` is a word. */
  lemma {:induction false} WordsAreWords(s: string)
    decreases |s|
    ensures forall j :: 0 <= j < |Words(s)| ==> IsWord(Words(s)[j])
  {
    var t := SkipNonAlnum(s);
    if t != [] {
      var w := Run(t);
      WordsAreWords(t[|w|..]);
    }
  }

  /** The words, separated by single hyphens. */
  function JoinWords(ws: seq<string>): string {
    if ws == [] then []
    else if |ws| == 1 then ws[0]
    else ws[0] + "-" + JoinWords(ws[1..])
  }

  /** `replace(/[^a-z0-9]+/g, '-')`: each maximal run of characters outside
      [a-z0-9] becomes a single hyphen. */
  function CollapseRuns(s: string): string
    decreases |s|
  {
    if s == [] then []
    else if IsAlnum(s[0]) then [s[0]] + CollapseRuns(s[1..])
    else "-" + CollapseRuns(SkipNonAlnum(s[1..]))
  }

  /** The `^-+` half of `replace(/^-+|-+$/g, '')`. */
  function TrimLeadingHyphens(s: string): string {
    if s != [] && s[0] == '-' then TrimLeadingHyphens(s[1..]) else s
  }

  /** The `-+$` half of `replace(/^-+|-+$/g, '')`. */
  function TrimTrailingHyphens(s: string): string {
    if s != [] && s[|s| - 1] == '-' then TrimTrailingHyphens(s[..|s| - 1]) else s
  }

  /** `generateSlug`: the [a-z0-9] words of the lower-cased name, joined by
      single hyphens. */
  function GenerateSlug(name: string): (slug: string)
    ensures AllSlugChars(slug)
    ensures NoDoubleHyphen(slug)
    ensures slug != [] ==> slug[0] != '-' && slug[|slug| - 1] != '-'
    ensures Alnums(slug) == Alnums(Lower(name))
    ensures slug == [] <==> Alnums(Lower(name)) == []
    ensures slug == JoinWords(Words(Lower(name)))
  {
    var collapsed := CollapseRuns(Lower(name));
    CollapseRunsShape(Lower(name));
    var slug := TrimTrailingHyphens(TrimLeadingHyphens(collapsed));
    TrimShape(collapsed);
    AlnumsEmpty(slug);
    SlugWords(Lower(name));
    slug
  }

  /** `getItemImageUrl`: the slug is the seed segment of the URL and can be
      read back from it; it never contains a '/'. */
  function GetItemImageUrl(name: string): (url: string)
    ensures |url| == |ImageUrlPrefix| + |GenerateSlug(name)| + |ImageUrlSuffix|
    ensures url[..|ImageUrlPrefix|] == ImageUrlPrefix
    ensures url[|url| - |ImageUrlSuffix|..] == ImageUrlSuffix
    ensures url[|ImageUrlPrefix|..|url| - |ImageUrlSuffix|] == GenerateSlug(name)
    ensures forall i :: |ImageUrlPrefix| <= i < |url| - |ImageUrlSuffix| ==> url[i] != '/'
  {
    var slug := GenerateSlug(name);
    var url := ImageUrlPrefix + slug + ImageUrlSuffix;
    assert forall i :: |ImageUrlPrefix| <= i < |url| - |ImageUrlSuffix| ==> url[i] == slug[i - |ImageUrlPrefix|];
    url
  }

  lemma {:induction false} AlnumsConcat(a: string, b: string)
    ensures Alnums(a + b) == Alnums(a) + Alnums(b)
  {
    if a == [] {
      assert a + b == b;
    } else {
      var head: string := if IsAlnum(a[0]) then [a[0]] else [];
      assert (a + b)[0] == a[0];
      assert (a + b)[1..] == a[1..] + b;
      assert Alnums(a + b) == head + Alnums(a[1..] + b);
      AlnumsConcat(a[1..], b);
      assert Alnums(a) == head + Alnums(a[1..]);
      assert head + (Alnums(a[1..]) + Alnums(b)) == (head + Alnums(a[1..])) + Alnums(b);
    }
  }

  /** A non-empty string with no [a-z0-9] character starts with something
      else. */
  lemma AlnumsEmpty(s: string)
    ensures s != [] && Alnums(s) == [] ==> !IsAlnum(s[0])
  {
  }

  /** Alnums of a non-empty string, split at its first character. */
  lemma AlnumsCons(s: string)
    requires s != []
    ensures Alnums(s) == Alnums([s[0]]) + Alnums(s[1..])
  {
    assert s == [s[0]] + s[1..];
    AlnumsConcat([s[0]], s[1..]);
  }

  /** What the collapsing step produces: slug characters only, single
      hyphens, and it starts with the input's first character when that is
      alphanumeric. */
  lemma {:induction false} CollapseRunsShape(s: string)
    decreases |s|
    ensures AllSlugChars(CollapseRuns(s))
    ensures NoDoubleHyphen(CollapseRuns(s))
    ensures Alnums(CollapseRuns(s)) == Alnums(s)
    ensures CollapseRuns(s) != [] && s != [] && IsAlnum(s[0]) ==> CollapseRuns(s)[0] == s[0]
    ensures CollapseRuns(s) == [] <==> s == []
  {
    if s != [] {
      CollapseRunsShapeStep(s);
    }
  }

  /** One step of `CollapseRunsShape`. */
  lemma {:induction false} CollapseRunsShapeStep(s: string)
    requires s != []
    decreases |s|, 0
    ensures AllSlugChars(CollapseRuns(s))
    ensures NoDoubleHyphen(CollapseRuns(s))
    ensures Alnums(CollapseRuns(s)) == Alnums(s)
    ensures IsAlnum(s[0]) ==> CollapseRuns(s)[0] == s[0]
    ensures CollapseRuns(s) != []
  {
    var c := CollapseRuns(s);
    AlnumsCons(s);
    if IsAlnum(s[0]) {
      var rest := CollapseRuns(s[1..]);
      CollapseRunsShape(s[1..]);
      assert c == [s[0]] + rest;
      AlnumsConcat([s[0]], rest);
      assert AllSlugChars(c) by {
        forall i | 0 <= i < |c| ensures IsSlugChar(c[i]) {
          if i > 0 {
            assert c[i] == rest[i - 1];
          }
        }
      }
      assert NoDoubleHyphen(c) by {
        forall i | 0 <= i < |c| - 1 ensures !(c[i] == '-' && c[i + 1] == '-') {
          if i > 0 {
            assert c[i] == rest[i - 1] && c[i + 1] == rest[i];
          }
        }
      }
    } else {
      var t := SkipNonAlnum(s[1..]);
      CollapseRunsShape(t);
      var rest := CollapseRuns(t);
      assert c == "-" + rest;
      assert rest != [] ==> IsAlnum(rest[0]);
      AlnumsConcat("-", rest);
      assert AllSlugChars(c) by {
        forall i | 0 <= i < |c| ensures IsSlugChar(c[i]) {
          if i > 0 {
            assert c[i] == rest[i - 1];
          }
        }
      }
      assert NoDoubleHyphen(c) by {
        forall i | 0 <= i < |c| - 1 ensures !(c[i] == '-' && c[i + 1] == '-') {
          if i > 0 {
            assert c[i] == rest[i - 1] && c[i + 1] == rest[i];
          }
        }
      }
    }
  }

  /** Joined words start and end with a [a-z0-9] character. */
  lemma {:induction false} JoinWordsEnds(ws: seq<string>)
    requires ws != [] && forall j :: 0 <= j < |ws| ==> IsWord(ws[j])
    ensures var s := JoinWords(ws); s != [] && IsAlnum(s[0]) && IsAlnum(s[|s| - 1])
  {
    if |ws| > 1 {
      assert IsWord(ws[0]);
      JoinWordsEnds(ws[1..]);
    } else {
      assert IsWord(ws[0]);
    }
  }

  /** Joining one word in front of others puts one hyphen between them. */
  lemma {:induction false} JoinWordsCons(w: string, ws: seq<string>)
    requires ws != []
    ensures JoinWords([w] + ws) == w + "-" + JoinWords(ws)
  {
    assert ([w] + ws)[1..] == ws;
  }

  /** A word in front of collapsed words that end with `e`. */
  lemma {:induction false} JoinAfter(w: string, ws: seq<string>, c: string, e: string)
    requires ws != [] && c == JoinWords(ws) + e
    ensures w + ("-" + c) == JoinWords([w] + ws) + e
  {
    JoinWordsCons(w, ws);
    var j := JoinWords(ws);
    assert w + ("-" + (j + e)) == (w + "-" + j) + e;
  }

  /** An [a-z0-9] prefix passes through the collapsing step unchanged. */
  lemma {:induction false} CollapseRunsAlnumPrefix(w: string, u: string)
    requires AllAlnum(w)
    ensures CollapseRuns(w + u) == w + CollapseRuns(u)
  {
    if w == [] {
      assert w + u == u;
    } else {
      assert (w + u)[0] == w[0];
      assert (w + u)[1..] == w[1..] + u;
      assert AllAlnum(w[1..]) by {
        assert forall i :: 0 <= i < |w| - 1 ==> w[1..][i] == w[i + 1];
      }
      CollapseRunsAlnumPrefix(w[1..], u);
      assert [w[0]] + (w[1..] + CollapseRuns(u)) == w + CollapseRuns(u);
    }
  }

  /** The words of `s` are those left after its leading separators. */
  lemma {:induction false} WordsSkip(s: string)
    ensures Words(SkipNonAlnum(s)) == Words(s)
  {
    var t := SkipNonAlnum(s);
    assert SkipNonAlnum(t) == t;
  }

  /** A hyphen when `s` ends with a character outside [a-z0-9]. */
  function EndHyphen(s: string): string {
    if s != [] && !IsAlnum(s[|s| - 1]) then "-" else ""
  }

  /** A string that starts with a word: that word, then the rest. */
  lemma {:induction false} WordHead(t: string)
    requires t != [] && IsAlnum(t[0])
    ensures var w := Run(t); var u := t[|w|..];
      && w != [] && AllAlnum(w) && t == w + u
      && CollapseRuns(t) == w + CollapseRuns(u)
      && Words(t) == [w] + Words(u)
      && (u == [] || !IsAlnum(u[0]))
  {
    var w := Run(t);
    var u := t[|w|..];
    assert t == w + u;
    CollapseRunsAlnumPrefix(w, u);
    assert SkipNonAlnum(t) == t;
  }

  /** A string that starts with a separator run: one hyphen, then what
      follows the run. */
  lemma {:induction false} SeparatorHead(u: string)
    requires u != [] && !IsAlnum(u[0])
    ensures var v := SkipNonAlnum(u);
      && CollapseRuns(u) == "-" + CollapseRuns(v)
      && Words(u) == Words(v)
      && v == u[|u| - |v|..]
      && (v == [] || IsAlnum(v[0]))
      && (v == [] ==> EndHyphen(u) == "-")
  {
    var v := SkipNonAlnum(u);
    assert SkipNonAlnum(u[1..]) == v;
    WordsSkip(u);
    SkipNonAlnumSuffix(u);
  }

  /** Collapsing a string that starts with a word: the words joined by single
      hyphens, plus one hyphen if the string ends with separators. */
  lemma {:induction false} CollapseRunsWordsAlnum(t: string)
    requires t != [] && IsAlnum(t[0])
    decreases |t|
    ensures CollapseRuns(t) == JoinWords(Words(t)) + EndHyphen(t)
  {
    var w := Run(t);
    var u := t[|w|..];
    WordHead(t);
    if u == [] {
      SingleWord(t);
    } else if SkipNonAlnum(u) == [] {
      WordThenSeparators(t);
    } else {
      var v := SkipNonAlnum(u);
      SeparatorHead(u);
      CollapseRunsWordsAlnum(v);
      assert t[|t| - 1] == v[|v| - 1];
      assert EndHyphen(t) == EndHyphen(v);
      JoinAfter(w, Words(v), CollapseRuns(v), EndHyphen(t));
    }
  }

  /** The case of `CollapseRunsWordsAlnum` where `t` is one word. */
  lemma {:induction false} SingleWord(t: string)
    requires t != [] && IsAlnum(t[0]) && t[|Run(t)|..] == []
    ensures CollapseRuns(t) == JoinWords(Words(t)) + EndHyphen(t)
  {
    var w := Run(t);
    WordHead(t);
    assert t[|t| - 1] == w[|w| - 1];
    assert Words(t) == [w];
  }

  /** The case of `CollapseRunsWordsAlnum` where `t` is one word followed by
      separators only. */
  lemma {:induction false} WordThenSeparators(t: string)
    requires t != [] && IsAlnum(t[0])
    requires var u := t[|Run(t)|..]; u != [] && SkipNonAlnum(u) == []
    ensures CollapseRuns(t) == JoinWords(Words(t)) + EndHyphen(t)
  {
    var w := Run(t);
    var u := t[|w|..];
    WordHead(t);
    SeparatorHead(u);
    var empty: string := [];
    assert CollapseRuns(u) == "-" + CollapseRuns(empty) == "-";
    assert Words(u) == Words(empty) == [];
    assert t[|t| - 1] == u[|u| - 1];
    assert EndHyphen(t) == EndHyphen(u) == "-";
    assert JoinWords([w]) == w;
  }

  /** Where the hyphens of `CollapseRuns` go: one for a leading separator
      run, one between consecutive words, one for a trailing separator run
      after a word. */
  lemma {:induction false} CollapseRunsWords(s: string)
    ensures CollapseRuns(s) ==
      (if s != [] && !IsAlnum(s[0]) then "-" else "")
      + JoinWords(Words(s))
      + (if Words(s) != [] then EndHyphen(s) else "")
  {
    if s != [] {
      if IsAlnum(s[0]) {
        CollapseRunsWordsAlnum(s);
        assert Words(s) != [] by {
          WordHead(s);
        }
      } else {
        CollapseRunsWordsSeparator(s);
      }
    }
  }

  /** The case of `CollapseRunsWords` where `s` starts with a separator. */
  lemma {:induction false} CollapseRunsWordsSeparator(s: string)
    requires s != [] && !IsAlnum(s[0])
    ensures CollapseRuns(s) ==
      "-" + JoinWords(Words(s)) + (if Words(s) != [] then EndHyphen(s) else "")
  {
    var v := SkipNonAlnum(s);
    SeparatorHead(s);
    if v == [] {
      var empty: string := [];
      assert CollapseRuns(s) == "-" + CollapseRuns(empty) == "-";
      assert Words(s) == Words(empty) == [];
    } else {
      CollapseRunsWordsAlnum(v);
      assert s[|s| - 1] == v[|v| - 1];
      assert EndHyphen(s) == EndHyphen(v);
      assert Words(v) != [] by {
        WordHead(v);
      }
    }
  }

  /** Trimming the collapsed string leaves exactly the words joined by
      single hyphens. */
  lemma {:induction false} SlugWords(s: string)
    ensures TrimTrailingHyphens(TrimLeadingHyphens(CollapseRuns(s))) == JoinWords(Words(s))
  {
    CollapseRunsWords(s);
    WordsAreWords(s);
    if Words(s) != [] {
      JoinWordsEnds(Words(s));
    }
    TrimEdges(if s != [] && !IsAlnum(s[0]) then "-" else "",
      JoinWords(Words(s)),
      if Words(s) != [] then EndHyphen(s) else "");
  }

  /** Trimming removes at most one hyphen at each end of a string whose
      middle part starts and ends with [a-z0-9]. */
  lemma {:induction false} TrimEdges(lead: string, j: string, trail: string)
    requires lead == "" || lead == "-"
    requires trail == "" || trail == "-"
    requires j == [] ==> trail == ""
    requires j != [] ==> IsAlnum(j[0]) && IsAlnum(j[|j| - 1])
    ensures TrimTrailingHyphens(TrimLeadingHyphens(lead + j + trail)) == j
  {
    var x := j + trail;
    assert lead + j + trail == lead + x;
    TrimOneLeading(lead, x);
    TrimOneTrailing(j, trail);
  }

  lemma {:induction false} TrimOneLeading(lead: string, x: string)
    requires lead == "" || lead == "-"
    requires x == [] || x[0] != '-'
    ensures TrimLeadingHyphens(lead + x) == x
  {
    if lead == "-" {
      assert (lead + x)[1..] == x;
    } else {
      assert lead + x == x;
    }
  }

  lemma {:induction false} TrimOneTrailing(j: string, trail: string)
    requires trail == "" || trail == "-"
    requires j == [] || j[|j| - 1] != '-'
    ensures TrimTrailingHyphens(j + trail) == j
  {
    if trail == "-" {
      assert (j + trail)[..|j|] == j;
    } else {
      assert j + trail == j;
    }
  }

  /** Trimming keeps what collapsing established and removes the hyphens at
      both ends. */
  lemma TrimShape(s: string)
    requires AllSlugChars(s) && NoDoubleHyphen(s)
    ensures var t := TrimTrailingHyphens(TrimLeadingHyphens(s));
      && AllSlugChars(t)
      && NoDoubleHyphen(t)
      && (t != [] ==> t[0] != '-' && t[|t| - 1] != '-')
      && Alnums(t) == Alnums(s)
  {
    var k := TrimLeadingIsSuffix(s);
    var u := TrimLeadingHyphens(s);
    var m := TrimTrailingIsPrefix(u);
    var t := TrimTrailingHyphens(u);
    assert forall i :: 0 <= i < |t| ==> t[i] == s[k + i];
  }

  /** Leading hyphens are dropped, nothing else. */
  lemma {:induction false} TrimLeadingIsSuffix(s: string) returns (k: nat)
    ensures k <= |s| && TrimLeadingHyphens(s) == s[k..]
    ensures forall i :: 0 <= i < k ==> s[i] == '-'
    ensures TrimLeadingHyphens(s) == [] || TrimLeadingHyphens(s)[0] != '-'
    ensures Alnums(TrimLeadingHyphens(s)) == Alnums(s)
  {
    if s != [] && s[0] == '-' {
      var j := TrimLeadingIsSuffix(s[1..]);
      k := j + 1;
      assert s == [s[0]] + s[1..];
      AlnumsConcat([s[0]], s[1..]);
    } else {
      k := 0;
    }
  }

  /** Trailing hyphens are dropped, nothing else. */
  lemma {:induction false} TrimTrailingIsPrefix(s: string) returns (m: nat)
    ensures m <= |s| && TrimTrailingHyphens(s) == s[..m]
    ensures forall i :: m <= i < |s| ==> s[i] == '-'
    ensures TrimTrailingHyphens(s) == [] || TrimTrailingHyphens(s)[|TrimTrailingHyphens(s)| - 1] != '-'
    ensures Alnums(TrimTrailingHyphens(s)) == Alnums(s)
  {
    if s != [] && s[|s| - 1] == '-' {
      var init := s[..|s| - 1];
      m := TrimTrailingIsPrefix(init);
      assert s == init + [s[|s| - 1]];
      AlnumsConcat(init, [s[|s| - 1]]);
    } else {
      m := |s|;
    }
  }

  /** `CollapseRuns` leaves a string made of [a-z0-9] and single hyphens
      as it is. */
  lemma {:induction false} CollapseRunsOfSlug(s: string)
    requires AllSlugChars(s) && NoDoubleHyphen(s)
    decreases |s|
    ensures CollapseRuns(s) == s
  {
    if s != [] {
      var rest := s[1..];
      assert AllSlugChars(rest) && NoDoubleHyphen(rest) by {
        assert forall i :: 0 <= i < |rest| ==> rest[i] == s[i + 1];
      }
      if IsAlnum(s[0]) {
        CollapseRunsOfSlug(rest);
      } else {
        assert rest == [] || IsAlnum(rest[0]) by {
          if rest != [] {
            assert rest[0] == s[1];
          }
        }
        assert SkipNonAlnum(rest) == rest;
        CollapseRunsOfSlug(rest);
        assert s == [s[0]] + rest;
      }
    }
  }

  lemma LowerOfSlug(s: string)
    requires AllSlugChars(s)
    ensures Lower(s) == s
  {
  }

  /** A slug is its own slug. */
  lemma SlugIdempotent(name: string)
    ensures GenerateSlug(GenerateSlug(name)) == GenerateSlug(name)
  {
    var slug := GenerateSlug(name);
    LowerOfSlug(slug);
    CollapseRunsOfSlug(slug);
  }
}
