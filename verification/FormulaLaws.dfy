/** What the normal form and the skeleton of a formula keep apart: token by token, and
    without looking into how they are composed. */
module FormulaLaws {
  import opened Texts
  import opened CellReferences
  import opened Formulas

  // ---------------------------------------------------------------- texts between texts

  /** The formula `x...y` starts with `=` whichever of the two is in between, or with neither. */
  predicate StartsAlike(x: string, v: string, v': string)
  {
    x != "" || (v != "" && v' != "" && (v[0] == '=' <==> v'[0] == '='))
  }

  lemma MiddleDecides(x: string, v: string, v': string, y: string)
    requires StartsAlike(x, v, v')
    ensures Prefixed(x + v + y) == Prefixed(x + v' + y) <==> v == v'
  {
    var a, b := x + v + y, x + v' + y;
    assert (a != "" && a[0] == '=') <==> (b != "" && b[0] == '=');
    if "=" + a == "=" + b { SameTail("=", a, b); }
    if a == b {
      assert a == x + (v + y) && b == x + (v' + y);
      SameTail(x, v + y, v' + y);
      assert |v| == |v'|;
      assert v == (v + y)[..|v|] == (v' + y)[..|v'|] == v';
    }
  }

  /** Exactly one `=` is put in front where there is none. */
  lemma PrefixedOnce(s: string)
    ensures Prefixed(s) != "" && Prefixed(s)[0] == '=' && (Prefixed(s) == s || Prefixed(s) == "=" + s)
    ensures Prefixed(Prefixed(s)) == Prefixed(s)
  {
  }

  // ---------------------------------------------------------------- normal forms

  lemma {:induction false} PiecesConcat(a: seq<Token>, b: seq<Token>)
    ensures Pieces(a + b) == Pieces(a) + Pieces(b)
  {
    hide TokenPieces, TokensOk, PiecesOk;
    if b == [] {
      assert a + b == a;
    } else {
      var n := |b| - 1;
      assert (a + b)[..|a + b| - 1] == a + b[..n];
      PiecesConcat(a, b[..n]);
    }
  }

  /** The text of tokens in the normal form, in a cell. */
  function Body(ts: seq<Token>, origin: Cell): string
    requires TokensOk(ts)
  {
    Render(Pieces(ts), origin)
  }

  lemma BodyConcat(a: seq<Token>, b: seq<Token>, origin: Cell)
    requires TokensOk(a) && TokensOk(b)
    ensures TokensOk(a + b) && Body(a + b, origin) == Body(a, origin) + Body(b, origin)
  {
    hide Pieces, Render;
    PiecesConcat(a, b);
    RenderConcat(Pieces(a), Pieces(b), origin);
  }

  lemma BodyOfThree(a: seq<Token>, t: Token, b: seq<Token>, origin: Cell)
    requires TokensOk(a) && TokensOk([t]) && TokensOk(b)
    ensures TokensOk(a + [t] + b)
    ensures NormalForm(a + [t] + b, origin) == Prefixed(Body(a, origin) + Body([t], origin) + Body(b, origin))
    ensures Body(a, origin) == "" ==> NormalForm(a, origin) == "="
  {
    hide Pieces, Render, Body;
    BodyConcat(a, [t], origin);
    BodyConcat(a + [t], b, origin);
    BodyIsRendered(a, origin);
    BodyIsRendered(a + [t] + b, origin);
  }

  lemma BodyIsRendered(ts: seq<Token>, origin: Cell)
    requires TokensOk(ts)
    ensures NormalForm(ts, origin) == Prefixed(Body(ts, origin))
  {
  }

  lemma BodyOfToken(t: Token, origin: Cell)
    requires TokensOk([t])
    ensures t.FuncOpen? ==> Body([t], origin) == FunctionName(t.value)
    ensures t.WhiteSpace? ==> Body([t], origin) == ""
    ensures t.Other? ==> Body([t], origin) == t.value
    ensures t.Range? ==> PiecesOk(t.pieces) && Body([t], origin) == Render(t.pieces, origin)
  {
    hide FunctionName, Render;
    assert [t][..0] == [] && [t][0] == t;
    assert Pieces([t]) == TokenPieces(t);
    RenderNothing(origin);
    if t.FuncOpen? || t.Other? { RenderOne(TokenPieces(t)[0], origin); }
  }

  /** Operators and constants are kept: in formulas alike but for the text of one token
      that is neither a function, a range nor white space, the normal forms are equal if
      and only if the texts are. */
  lemma OtherTokensAreKept(a: seq<Token>, v: string, v': string, b: seq<Token>, origin: Cell)
    requires TokensOk(a) && TokensOk(b)
    requires NormalForm(a, origin) != "=" || (v != "" && v' != "" && (v[0] == '=' <==> v'[0] == '='))
    ensures TokensOk(a + [Other(v)] + b) && TokensOk(a + [Other(v')] + b)
    ensures NormalForm(a + [Other(v)] + b, origin) == NormalForm(a + [Other(v')] + b, origin) <==> v == v'
  {
    hide NormalForm, Body;
    BodyOfThree(a, Other(v), b, origin);
    BodyOfThree(a, Other(v'), b, origin);
    BodyOfToken(Other(v), origin);
    BodyOfToken(Other(v'), origin);
    MiddleDecides(Body(a, origin), v, v', Body(b, origin));
  }

  predicate IsPrefix(prefix: string)
  {
    Upper(prefix) == "" || Upper(prefix) == "_XLFN." || Upper(prefix) == "_XLFN._XLWS."
  }

  predicate IsName(name: string) { name != "" && name[0] != '=' && forall i :: 0 <= i < |name| ==> name[i] != '_' }

  /** Functions are kept up to case and compatibility prefixes. */
  lemma FunctionsAreKept(a: seq<Token>, p: string, f: string, p': string, f': string, b: seq<Token>, origin: Cell)
    requires TokensOk(a) && TokensOk(b) && IsPrefix(p) && IsPrefix(p') && IsName(f) && IsName(f')
    ensures TokensOk(a + [FuncOpen(p + f)] + b) && TokensOk(a + [FuncOpen(p' + f')] + b)
    ensures NormalForm(a + [FuncOpen(p + f)] + b, origin) == NormalForm(a + [FuncOpen(p' + f')] + b, origin) <==>
            Upper(f) == Upper(f')
  {
    hide NormalForm, Body, FunctionName;
    BodyOfThree(a, FuncOpen(p + f), b, origin);
    BodyOfThree(a, FuncOpen(p' + f'), b, origin);
    BodyOfToken(FuncOpen(p + f), origin);
    BodyOfToken(FuncOpen(p' + f'), origin);
    PrefixesDoNotMatter(f, p);
    PrefixesDoNotMatter(f', p');
    MiddleDecides(Body(a, origin), Upper(f), Upper(f'), Body(b, origin));
  }

  /** White space between tokens is dropped. */
  lemma WhiteSpaceIsDropped(a: seq<Token>, v: string, b: seq<Token>, origin: Cell)
    requires TokensOk(a) && TokensOk(b)
    ensures TokensOk(a + [WhiteSpace(v)] + b) && TokensOk(a + b)
    ensures NormalForm(a + [WhiteSpace(v)] + b, origin) == NormalForm(a + b, origin)
  {
    hide NormalForm, Body;
    BodyOfThree(a, WhiteSpace(v), b, origin);
    BodyOfToken(WhiteSpace(v), origin);
    BodyConcat(a, b, origin);
    BodyIsRendered(a + b, origin);
    assert Body(a, origin) + "" + Body(b, origin) == Body(a, origin) + Body(b, origin);
  }

  /** What stands between the references of a range operand, such as a sheet name, is kept. */
  lemma RangeTextsAreKept(a: seq<Token>, ps: seq<Piece>, l: string, l': string, qs: seq<Piece>, b: seq<Token>,
                          origin: Cell)
    requires TokensOk(a) && TokensOk(b) && PiecesOk(ps) && PiecesOk(qs)
    requires NormalForm(a, origin) != "=" || (l != "" && l' != "" && l[0] != '=' && l'[0] != '=')
    ensures var t, t' := Range(ps + [Literal(l)] + qs), Range(ps + [Literal(l')] + qs);
            && TokensOk(a + [t] + b) && TokensOk(a + [t'] + b)
            && (NormalForm(a + [t] + b, origin) == NormalForm(a + [t'] + b, origin) <==> l == l')
  {
    hide NormalForm, Body, Render, PiecesOk;
    RangeBetween(a, ps, l, qs, b, origin);
    RangeBetween(a, ps, l', qs, b, origin);
    MiddleDecides(Body(a, origin) + Render(ps, origin), l, l', Render(qs, origin) + Body(b, origin));
  }

  lemma RangeBetween(a: seq<Token>, ps: seq<Piece>, l: string, qs: seq<Piece>, b: seq<Token>, origin: Cell)
    requires TokensOk(a) && TokensOk(b) && PiecesOk(ps) && PiecesOk(qs)
    ensures var t := Range(ps + [Literal(l)] + qs);
            && TokensOk(a + [t] + b)
            && NormalForm(a + [t] + b, origin) ==
               Prefixed((Body(a, origin) + Render(ps, origin)) + l + (Render(qs, origin) + Body(b, origin)))
    ensures Body(a, origin) == "" ==> NormalForm(a, origin) == "="
  {
    hide NormalForm, Body, Render, Prefixed, PiecesOk;
    var t := Range(ps + [Literal(l)] + qs);
    RenderThree(ps, l, qs, origin);
    assert TokensOk([t]);
    BodyOfThree(a, t, b, origin);
    BodyOfToken(t, origin);
    Regrouped(Body(a, origin), Render(ps, origin), l, Render(qs, origin), Body(b, origin));
  }

  lemma Regrouped(u: string, v: string, l: string, w: string, x: string)
    ensures u + (v + l + w) + x == (u + v) + l + (w + x)
  {
  }

  lemma RenderThree(ps: seq<Piece>, l: string, qs: seq<Piece>, origin: Cell)
    requires PiecesOk(ps) && PiecesOk(qs)
    ensures PiecesOk(ps + [Literal(l)] + qs)
    ensures Render(ps + [Literal(l)] + qs, origin) == Render(ps, origin) + l + Render(qs, origin)
  {
    hide Render;
    RenderOne(Literal(l), origin);
    RenderConcat(ps, [Literal(l)], origin);
    RenderConcat(ps + [Literal(l)], qs, origin);
  }

  // ---------------------------------------------------------------- fill-copies, token by token

  /** Every reference of the one is the fill-copy of the other's. */
  predicate FilledTokens(ts: seq<Token>, from_: Cell, ts': seq<Token>, to: Cell)
    requires SameTokens(ts, ts')
  {
    forall i :: 0 <= i < |ts| && ts[i].Range? ==>
             SameToken(ts[i], ts'[i]) && IsFill(ts[i].pieces, from_, ts'[i].pieces, to)
  }

  lemma FillOfConcat(a: seq<Piece>, b: seq<Piece>, a': seq<Piece>, b': seq<Piece>, from_: Cell, to: Cell)
    requires SameShape(a, a') && SameShape(b, b')
    ensures SameShape(a + b, a' + b')
    ensures IsFill(a + b, from_, a' + b', to) <==> IsFill(a, from_, a', to) && IsFill(b, from_, b', to)
  {
    hide SameKind, FilledPiece;
    SameShapeConcat(a, b, a', b');
    var ps, qs := a + b, a' + b';
    if IsFill(ps, from_, qs, to) {
      forall i | 0 <= i < |a| ensures SameKind(a[i], a'[i]) && FilledPiece(a[i], from_, a'[i], to) {
        assert ps[i] == a[i] && qs[i] == a'[i];
      }
      forall i | 0 <= i < |b| ensures SameKind(b[i], b'[i]) && FilledPiece(b[i], from_, b'[i], to) {
        assert ps[|a| + i] == b[i] && qs[|a| + i] == b'[i];
      }
    }
  }

  lemma FillOfToken(t: Token, from_: Cell, t': Token, to: Cell)
    requires SameToken(t, t')
    ensures SameShape(TokenPieces(t), TokenPieces(t'))
    ensures IsFill(TokenPieces(t), from_, TokenPieces(t'), to) <==>
            (t.Range? ==> IsFill(t.pieces, from_, t'.pieces, to))
  {
    hide FunctionName, IsCellText;
    SameTokenParts(t, t');
  }

  lemma {:induction false} FilledTokenByToken(ts: seq<Token>, from_: Cell, ts': seq<Token>, to: Cell)
    requires SameTokens(ts, ts')
    ensures SameShape(Pieces(ts), Pieces(ts'))
    ensures IsFill(Pieces(ts), from_, Pieces(ts'), to) <==> FilledTokens(ts, from_, ts', to)
  {
    hide SameToken, TokenPieces, SameShape, IsFill;
    SkeletonIgnoresReferences(ts, ts');
    if ts == [] {
      NothingFilled(from_, to);
    } else {
      var n := |ts| - 1;
      assert SameToken(ts[n], ts'[n]);
      FilledTokenByToken(ts[..n], from_, ts'[..n], to);
      FillOfToken(ts[n], from_, ts'[n], to);
      FillOfConcat(Pieces(ts[..n]), TokenPieces(ts[n]), Pieces(ts'[..n]), TokenPieces(ts'[n]), from_, to);
      LastToken(ts, from_, ts', to);
    }
  }

  lemma NothingFilled(from_: Cell, to: Cell)
    ensures SameShape([], []) && IsFill([], from_, [], to)
  {
  }

  lemma LastToken(ts: seq<Token>, from_: Cell, ts': seq<Token>, to: Cell)
    requires SameTokens(ts, ts') && ts != []
    ensures var n := |ts| - 1;
            FilledTokens(ts, from_, ts', to) <==>
            FilledTokens(ts[..n], from_, ts'[..n], to)
            && SameToken(ts[n], ts'[n]) && (ts[n].Range? ==> IsFill(ts[n].pieces, from_, ts'[n].pieces, to))
  {
    hide SameShape, IsFill, FunctionName;
    var n := |ts| - 1;
    forall i | 0 <= i < |ts|
      ensures SameToken(ts[i], ts'[i]) && (i < n ==> ts[..n][i] == ts[i] && ts'[..n][i] == ts'[i])
    {
    }
  }

  /** Of two formulas that are token by token alike but for references, white space and
      compatibility prefixes, in two cells, the normal forms are equal if and only if each
      reference of the one is the fill-copy of the other's. */
  lemma SameNormalFormOfTokens(ts: seq<Token>, from_: Cell, ts': seq<Token>, to: Cell)
    requires TokensOk(ts) && TokensOk(ts') && SameTokens(ts, ts')
    ensures NormalForm(ts, from_) == NormalForm(ts', to) <==> FilledTokens(ts, from_, ts', to)
  {
    hide NormalForm, SameToken, SameShape, IsFill, Pieces;
    FilledTokenByToken(ts, from_, ts', to);
    SameNormalFormExactlyWhenFilled(ts, from_, ts', to);
  }

  // ---------------------------------------------------------------- skeletons

  lemma {:induction false} JoinedConcat(a: seq<Token>, b: seq<Token>)
    ensures Joined(a + b) == Joined(a) + Joined(b)
  {
    hide SkeletonPart;
    if b == [] {
      assert a + b == a;
    } else {
      var n := |b| - 1;
      assert (a + b)[..|a + b| - 1] == a + b[..n];
      JoinedConcat(a, b[..n]);
    }
  }

  lemma JoinedOfThree(a: seq<Token>, t: Token, b: seq<Token>)
    ensures Joined(a + [t] + b) == Joined(a) + SkeletonPart(t) + Joined(b)
  {
    hide SkeletonPart;
    JoinedConcat(a, [t]);
    JoinedConcat(a + [t], b);
    assert [t][..0] == [] && [t][0] == t;
    assert Joined([t]) == SkeletonPart(t);
  }

  /** Operators and constants are kept in skeletons too. */
  lemma SkeletonKeepsOthers(a: seq<Token>, v: string, v': string, b: seq<Token>)
    requires StartsAlike(Joined(a), v, v')
    ensures Prefixed(Joined(a + [Other(v)] + b)) == Prefixed(Joined(a + [Other(v')] + b)) <==> v == v'
  {
    JoinedOfThree(a, Other(v), b);
    JoinedOfThree(a, Other(v'), b);
    MiddleDecides(Joined(a), v, v', Joined(b));
  }

  /** ... and functions up to case and prefixes. */
  lemma SkeletonKeepsFunctions(a: seq<Token>, p: string, f: string, p': string, f': string, b: seq<Token>)
    requires IsPrefix(p) && IsPrefix(p') && IsName(f) && IsName(f')
    ensures Prefixed(Joined(a + [FuncOpen(p + f)] + b)) == Prefixed(Joined(a + [FuncOpen(p' + f')] + b)) <==>
            Upper(f) == Upper(f')
  {
    hide FunctionName;
    JoinedOfThree(a, FuncOpen(p + f), b);
    JoinedOfThree(a, FuncOpen(p' + f'), b);
    PrefixesDoNotMatter(f, p);
    PrefixesDoNotMatter(f', p');
    MiddleDecides(Joined(a), Upper(f), Upper(f'), Joined(b));
  }

  /** Of a range operand a skeleton shows exactly whether its text contains `#REF!`. */
  lemma SkeletonOfRange(a: seq<Token>, ps: seq<Piece>, b: seq<Token>)
    ensures Joined(a + [Range(ps)] + b) == Joined(a) + (if HasBroken(Raw(ps)) then "#REF!" else "<REF>") + Joined(b)
    ensures HasBroken(Raw(ps)) <==> exists x, y :: Raw(ps) == x + "#REF!" + y
  {
    JoinedOfThree(a, Range(ps), b);
    ContainsMeans(Raw(ps));
  }

  lemma ContainsMeans(s: string)
    ensures HasBroken(s) <==> exists x, y :: s == x + "#REF!" + y
  {
    if i: int :| 0 <= i <= |s| && BrokenAt(s, i) {
      assert s == s[..i] + s[i..i + 5] + s[i + 5..];
      assert s == s[..i] + "#REF!" + s[i + 5..];
    }
    if x, y :| s == x + "#REF!" + y {
      assert s[|x|..|x| + 5] == "#REF!";
      assert BrokenAt(s, |x|);
    }
  }

  // ---------------------------------------------------------------- two formulas

  function TwoReferences(operator: string): seq<Token>
  {
    [Range([Reference(CellText("A", "1"))])] + [Other(operator)] + [Range([Reference(CellText("B", "$1"))])]
  }

  lemma ReadReferences()
    ensures IsCellText(CellText("A", "1")) && Parse(CellText("A", "1")) == Ref(false, 1, false, 1)
    ensures IsCellText(CellText("B", "$1")) && Parse(CellText("B", "$1")) == Ref(false, 2, true, 1)
  {
    assert DigitsValue("1") == 1 && Upper("A") == "A" && Upper("B") == "B";
    assert ColumnIndex("A") == 1 && ColumnIndex("B") == 2;
  }

  lemma WrittenReferences()
    ensures Encode(Ref(false, 1, false, 1), Cell(1, 3)) == "RC[-2]"
    ensures Encode(Ref(false, 2, true, 1), Cell(1, 3)) == "R1C[-1]"
  {
    assert IntText(-2) == "-2" && IntText(-1) == "-1" && NatText(1) == "1";
  }

  lemma OneReference(cell: CellText, origin: Cell)
    requires IsCellText(cell)
    ensures TokensOk([Range([Reference(cell)])])
    ensures Body([Range([Reference(cell)])], origin) == Encode(Parse(cell), origin)
  {
    hide IsCellText, Encode, Parse, Body;
    var t := Range([Reference(cell)]);
    assert PiecesOk([Reference(cell)]);
    BodyOfToken(t, origin);
    RenderOne(Reference(cell), origin);
  }

  /** `=A1+B$1` in the cell C1, or with any other operator. */
  lemma SumOfTwo(operator: string)
    ensures TokensOk(TwoReferences(operator))
    ensures NormalForm(TwoReferences(operator), Cell(1, 3)) == "=RC[-2]" + operator + "R1C[-1]"
  {
    hide IsCellText, Encode, Parse, Body, NormalForm;
    ReadReferences();
    WrittenReferences();
    OneReference(CellText("A", "1"), Cell(1, 3));
    OneReference(CellText("B", "$1"), Cell(1, 3));
    BodyOfThree([Range([Reference(CellText("A", "1"))])], Other(operator), [Range([Reference(CellText("B", "$1"))])],
                Cell(1, 3));
    BodyOfToken(Other(operator), Cell(1, 3));
    var s := "RC[-2]" + operator + "R1C[-1]";
    assert s[0] == 'R';
    assert "=" + s == "=RC[-2]" + operator + "R1C[-1]";
  }
}
