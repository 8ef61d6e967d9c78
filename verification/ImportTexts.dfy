// backend/notes_import.py: what the importer's text operations do to a text,
// and to its digest and title, said without the operations themselves.

module ImportTexts {
  import opened Text
  import opened NoteLibrary

  // -------------------------------------------------------------- normalising

  /** No byte-order mark, and no white space but single blanks between words. */
  predicate Tidy(s: string) {
    TidyAfter(s, false)
  }

  /** Tidy as what follows a word, or else stands at the start. */
  predicate TidyAfter(s: string, inWord: bool) {
    forall i :: 0 <= i < |s| ==> TidyAt(s, i, inWord)
  }

  predicate TidyAt(s: string, i: int, inWord: bool)
    requires 0 <= i < |s|
  {
    && s[i] != '\U{feff}'
    && (IsSpace(s[i]) ==> s[i] == ' ' && i + 1 < |s| && !IsSpace(s[i + 1]) && (i > 0 || inWord))
  }

  lemma TidyRest(s: string, inWord: bool)
    requires s != "" && TidyAfter(s, inWord)
    ensures TidyAfter(s[1..], !IsSpace(s[0])) && s[0] != BYTE_ORDER_MARK
    ensures IsSpace(s[0]) ==> s[0] == ' ' && inWord && s[1..] != ""
  {
    hide IsSpace;
    assert TidyAt(s, 0, inWord);
    var t, after := s[1..], !IsSpace(s[0]);
    forall i | 0 <= i < |t| ensures TidyAt(t, i, after) {
      assert TidyAt(s, i + 1, inWord);
    }
  }

  lemma JoinCons(word: string, rest: seq<string>)
    requires rest != []
    ensures Join([word] + rest, " ") == word + " " + Join(rest, " ")
  {
    assert ([word] + rest)[1..] == rest;
  }

  lemma {:induction false} TidyWords(s: string, word: string)
    requires TidyAfter(s, word != "")
    ensures s != "" || word != "" ==> Words(s, word) != []
    ensures Join(Words(s, word), " ") == word + s
  {
    hide IsSpace, TidyAfter;
    if s != "" {
      TidyRest(s, word != "");
      if IsSpace(s[0]) {
        TidyWords(s[1..], "");
        JoinCons(word, Words(s[1..], ""));
        assert Words(s, word) == [word] + Words(s[1..], "");
        assert word + " " + ("" + s[1..]) == word + s;
      } else {
        TidyWords(s[1..], word + [s[0]]);
        assert word + [s[0]] + s[1..] == word + s;
      }
    }
  }

  /** A tidy text is its own normal form. */
  lemma TidyIsNormal(s: string)
    requires Tidy(s)
    ensures Normalize(s) == s
  {
    TidyWords(s, "");
    assert "" + s == s;
  }

  lemma {:induction false} WordsSkipSpaces(sp: string, b: string)
    requires Blank(sp)
    ensures Words(sp + b, "") == Words(b, "")
  {
    if sp == "" {
      assert sp + b == b;
    } else {
      assert (sp + b)[1..] == sp[1..] + b;
      WordsSkipSpaces(sp[1..], b);
    }
  }

  lemma {:induction false} WordsOneBlank(a: string, sp: string, b: string, word: string)
    requires sp != "" && Blank(sp)
    ensures Words(a + sp + b, word) == Words(a + " " + b, word)
    decreases |a|
  {
    var s, t := a + sp + b, a + " " + b;
    if a == "" {
      assert s == sp + b && s[1..] == sp[1..] + b && t[1..] == b;
      WordsSkipSpaces(sp[1..], b);
    } else {
      assert s[1..] == a[1..] + sp + b && t[1..] == a[1..] + " " + b && s[0] == a[0] && t[0] == a[0];
      WordsOneBlank(a[1..], sp, b,
        if a[0] == BYTE_ORDER_MARK then word else if IsSpace(a[0]) then "" else word + [a[0]]);
    }
  }

  lemma {:induction false} WordsNoMark(a: string, b: string, word: string)
    ensures Words(a + "\U{feff}" + b, word) == Words(a + b, word)
    decreases |a|
  {
    var s, t := a + "\U{feff}" + b, a + b;
    if a == "" {
      assert s[1..] == b && t == b;
    } else {
      assert s[1..] == a[1..] + "\U{feff}" + b && t[1..] == a[1..] + b && s[0] == a[0] && t[0] == a[0];
      WordsNoMark(a[1..], b,
        if a[0] == BYTE_ORDER_MARK then word else if IsSpace(a[0]) then "" else word + [a[0]]);
    }
  }

  /** Any white space counts as one blank, outer white space and byte-order marks count for nothing. */
  lemma SpacingIsIgnored(a: string, sp: string, b: string)
    requires Blank(sp)
    ensures sp != "" ==> Normalize(a + sp + b) == Normalize(a + " " + b)
    ensures Normalize(sp + b) == Normalize(b) && Normalize(a + sp) == Normalize(a)
    ensures Normalize(a + "\U{feff}" + b) == Normalize(a + b)
  {
    if sp != "" {
      WordsOneBlank(a, sp, b, "");
      WordsOneBlank(a, sp, "", "");
      assert a + sp + "" == a + sp && a + " " + "" == a + " ";
      WordsTrailingSpace(a, ' ', "");
    } else {
      assert a + sp == a;
    }
    WordsSkipSpaces(sp, b);
    WordsNoMark(a, b, "");
  }

  // -------------------------------------------------------------------- titles

  predicate Hashes(s: string) {
    forall i :: 0 <= i < |s| ==> s[i] == '#'
  }

  /** The line says `w` behind heading marks and blanks. */
  predicate Says(l: string, a: string, h: string, b: string, w: string, c: string) {
    && l == a + h + b + w + c
    && Blank(a) && Hashes(h) && Blank(b) && Blank(c)
    && (w != "" ==> !IsSpace(w[0]) && !IsSpace(w[|w| - 1]) && (h == "" || b == "" ==> w[0] != '#'))
  }

  ghost predicate LineSays(l: string, w: string) {
    exists a, h, b, c :: Says(l, a, h, b, w, c)
  }

  function Heading(l: string): string {
    Strip(StripHashes(Strip(l, Spaces)), Spaces)
  }

  lemma {:induction false} HashesStripped(h: string, r: string)
    requires Hashes(h) && (r == "" || r[0] != '#')
    ensures StripHashes(h + r) == r
  {
    if h == "" {
      assert h + r == r;
    } else {
      assert (h + r)[1..] == h[1..] + r;
      HashesStripped(h[1..], r);
    }
  }

  lemma {:induction false} HashesKept(s: string) returns (h: string)
    ensures Hashes(h) && s == h + StripHashes(s) && (StripHashes(s) == "" || StripHashes(s)[0] != '#')
  {
    if s != "" && s[0] == '#' {
      var t := HashesKept(s[1..]);
      h := "#" + t;
      assert s == h + StripHashes(s);
    } else {
      h := "";
    }
  }

  /** Every line says its heading. */
  lemma HeadingIsSaid(l: string)
    ensures LineSays(l, Heading(l))
  {
    var a, c := Padded(l);
    var h := HashesKept(Strip(l, Spaces));
    var t := StripHashes(Strip(l, Spaces));
    var b, e := Padded(t);
    var w := Strip(t, Spaces);
    StripTrims(l);
    StripTrims(t);
    hide Strip, StripHashes, IsSpace;
    assert l == a + h + b + w + (e + c) by {
      assert l == a + (h + (b + w + e)) + c;
    }
    assert Strip(l, Spaces) == h + b + w + e;
    assert w != "" && b == "" ==> t[0] == w[0];
    assert Says(l, a, h, b, w, e + c);
  }

  lemma StripTrims(s: string)
    ensures var r := Strip(s, Spaces); r != "" ==> !IsSpace(r[0]) && !IsSpace(r[|r| - 1])
  {
    assert Trimmed(Strip(s, Spaces), Spaces);
  }

  /** A title that is more than dots, dashes and blanks. */
  predicate Telling(title: string) {
    exists i :: 0 <= i < |title| && title[i] !in {'.', ' ', '\t', '-', '_', '\U{2014}', '\U{2013}'}
  }

  predicate FirstPart(s: string, r: string) {
    if |s| <= 300 then r == s else r == s[..300]
  }

  ghost predicate SayNothing(lines: seq<string>) {
    forall j :: 0 <= j < |lines| ==> LineSays(lines[j], "")
  }

  /** The first line that says something, says `w`. */
  ghost predicate FirstWords(lines: seq<string>, k: int, w: string) {
    0 <= k < |lines| && w != "" && LineSays(lines[k], w) && SayNothing(lines[..k])
  }

  ghost predicate TitledBy(lines: seq<string>, otherwise: string, r: string) {
    || (exists k, w :: FirstWords(lines, k, w) && FirstPart(w, r))
    || (SayNothing(lines) && r == otherwise)
  }

  lemma {:induction false} TitleFromExact(lines: seq<string>, otherwise: string)
    ensures TitledBy(lines, otherwise, TitleFrom(lines, otherwise))
  {
    hide Strip, StripHashes, LineSays;
    var r := TitleFrom(lines, otherwise);
    if lines != [] {
      var w := Heading(lines[0]);
      HeadingIsSaid(lines[0]);
      if w != "" {
        assert FirstWords(lines, 0, w);
      } else {
        TitleFromExact(lines[1..], otherwise);
        if SayNothing(lines[1..]) {
          assert forall j :: 1 <= j < |lines| ==> lines[j] == lines[1..][j - 1];
        }
        if k, v :| FirstWords(lines[1..], k, v) && FirstPart(v, r) {
          assert lines[..k + 1] == [lines[0]] + lines[1..][..k];
          assert FirstWords(lines, k + 1, v);
        }
      }
    }
  }

  /** A note is titled by what its title says, else by its first line that says something. */
  lemma TitleMeans(title: string, body: string, source: string)
    ensures var t, r := Strip(title, Spaces), CleanTitle(title, body, source);
            && (Telling(t) ==> FirstPart(t, r))
            && (!Telling(t) ==> exists w :: TitledBy(SplitLines(body), source + " import", w) && FirstPart(w, r))
  {
    hide Strip, SplitLines, TitleFrom, TitledBy;
    var t := Strip(title, Spaces);
    TitleFromExact(SplitLines(body), source + " import");
    assert AllFiller(t) <==> !Telling(t);
  }
}
