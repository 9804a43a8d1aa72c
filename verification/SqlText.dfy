/** The laws of the SQL normaliser over literal characters. */
module SqlText {
  import opened Common
  import opened SqlNormalize

  /** Tab, line feed, vertical tab, form feed, carriage return, the four separators, and space. */
  predicate AsciiSpace(c: char) {
    c as int in {9, 10, 11, 12, 13, 28, 29, 30, 31, 32}
  }

  /** `w` is `kw`, each letter in either case. */
  predicate Spells(w: string, kw: string) {
    |w| == |kw| && forall k :: 0 <= k < |w| ==> w[k] == kw[k] || w[k] as int == kw[k] as int + 32
  }

  lemma SpellsIffUpper(w: string, kw: Keyword)
    ensures Spells(w, kw) <==> Upper(w) == kw
    ensures Spells(w, kw) ==> AllWord(w) && w != []
  {
    assert forall k :: 0 <= k < |w| && k < |kw| ==> 'A' <= kw[k] <= 'Z' && Upper(w)[k] == UpperChar(w[k]);
    if Upper(w) == kw {
      forall k | 0 <= k < |w| ensures w[k] == kw[k] || w[k] as int == kw[k] as int + 32 {
        assert Upper(w)[k] == kw[k];
      }
    }
  }

  // ------------------------------------------------------------------ whitespace

  lemma TokensAround(c: char)
    ensures Tokens(['0', c, '0'], []) ==
            if IsSpace(c) then ["0", "0"] else if IsOp(c) then ["0", [c], "0"] else [['0', c, '0']]
  {
    assert ['0', c, '0'][1..] == [c, '0'] && [c, '0'][1..] == ['0'] && ['0'][1..] == [];
    assert [] + ['0'] == "0" && "0" + [c] == ['0', c] && ['0', c] + ['0'] == ['0', c, '0'];
    assert Tokens(['0'], []) == Tokens([], ['0']) == [['0']];
    assert Tokens(['0'], ['0', c]) == Tokens([], ['0', c, '0']) == [['0', c, '0']];
    assert Tokens(['0', c, '0'], []) == Tokens([c, '0'], ['0']);
  }

  lemma JoinThree(a: string, b: string, c: string)
    ensures Join([a, b, c]) == a + " " + (b + " " + c)
  {
    assert [a, b, c][1..] == [b, c] && [b, c][1..] == [c];
    assert Join([b, c]) == b + " " + c;
  }

  /** A character of ASCII separates words exactly if its code is one of ten. */
  lemma SpaceIff(c: char)
    requires c as int < 128
    ensures Normalized(['0', c, '0']) == "0 0" <==> AsciiSpace(c)
  {
    var s := ['0', c, '0'];
    TokensAround(c);
    var j := Join(Tokens(s, []));
    UpWordsKinds(j, KEYWORDS);
    if IsSpace(c) {
      assert ["0", "0"][1..] == ["0"];
      assert j == "0" + " " + "0";
      assert Normalized(s)[0] == '0' && Normalized(s)[1] == ' ' && Normalized(s)[2] == '0';
    } else if IsOp(c) {
      JoinThree("0", [c], "0");
      assert |Normalized(s)| == 5;
    } else {
      assert j == s;
      assert Normalized(s)[1] != ' ';
    }
  }

  /** Any two runs of such characters are interchangeable. */
  lemma SpacesIrrelevant(a: string, v: string, w: string, b: string)
    requires v != [] && w != []
    requires (forall k :: 0 <= k < |v| ==> AsciiSpace(v[k])) && (forall k :: 0 <= k < |w| ==> AsciiSpace(w[k]))
    ensures Normalized(a + (v + b)) == Normalized(a + (w + b))
  {
    WhitespaceRunIrrelevant(a, v, w, b);
  }

  // ------------------------------------------------------------------ keywords

  /** Between other characters than letters, digits and `_`, a keyword may be written in any case. */
  lemma KeywordInAnyCase(a: string, w: string, kw: Keyword, b: string)
    requires kw in KEYWORDS && Spells(w, kw)
    requires NoWordFirst(b) && (a == [] || !IsWord(a[|a| - 1]))
    ensures Normalized(a + (w + b)) == Normalized(a + (kw + b))
  {
    SpellsIffUpper(w, kw);
    SpellsIffUpper(kw, kw);
    KeywordCaseIrrelevant(a, w, kw, b);
  }

  lemma WordIsToken(w: string)
    requires AllWord(w) && w != []
    ensures Normalized(w) == UpWord(w, KEYWORDS)
  {
    assert Plain(w) && w + [] == w && [] + w == w;
    TokensPlain(w, [], []);
    UpWordsWord(w, [], KEYWORDS);
    assert Join([w]) == w;
  }

  /** One word is upper-cased if it spells a keyword, and left alone otherwise. */
  lemma OneWord(w: string)
    requires AllWord(w) && w != []
    ensures forall kw :: kw in KEYWORDS && Spells(w, kw) ==> Normalized(w) == kw
    ensures (forall kw :: kw in KEYWORDS ==> !Spells(w, kw)) ==> Normalized(w) == w
  {
    WordIsToken(w);
    forall kw: Keyword | kw in KEYWORDS ensures Spells(w, kw) <==> Upper(w) == kw {
      SpellsIffUpper(w, kw);
    }
  }
}
