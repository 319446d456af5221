/** Normal forms of spreadsheet formulas: `normalize_formula` and `formula_skeleton` over
    the tokenizer's tokens. */
module Formulas {
  import opened Texts
  import opened CellReferences

  // ---------------------------------------------------------------- tokens

  /** A range operand as the reference expression cuts it up: its matches, and the text
      between them (sheet names, colons, error values). */
  datatype Piece = Literal(text: string) | Reference(cell: CellText)

  datatype Token =
    | FuncOpen(value: string) | Range(pieces: seq<Piece>) | WhiteSpace(value: string) | Other(value: string)

  predicate PiecesOk(pieces: seq<Piece>)
  {
    forall i :: 0 <= i < |pieces| && pieces[i].Reference? ==> IsCellText(pieces[i].cell)
  }

  predicate TokensOk(tokens: seq<Token>)
  {
    forall i :: 0 <= i < |tokens| && tokens[i].Range? ==> PiecesOk(tokens[i].pieces)
  }

  // ---------------------------------------------------------------- function names

  /** `s.replace(old, "")`. */
  function Remove(s: string, what: string): string
    requires what != ""
  {
    if s == "" then ""
    else if what <= s then Remove(s[|what|..], what)
    else [s[0]] + Remove(s[1..], what)
  }

  const WORKSHEET := "_XLFN._XLWS."
  const FUTURE := "_XLFN."

  /** `_function_name`. */
  function FunctionName(value: string): string { Remove(Remove(Upper(value), WORKSHEET), FUTURE) }

  lemma {:induction false} NothingToRemove(s: string, what: string)
    requires what != "" && forall i :: 0 <= i < |s| ==> s[i] != what[0]
    ensures Remove(s, what) == s
  {
    if s != "" {
      NothingToRemove(s[1..], what);
      assert s[0] != what[0];
      assert !(what <= s);
      assert s == [s[0]] + s[1..];
    }
  }

  lemma RemoveInFront(s: string, what: string)
    requires what != "" && forall i :: 0 <= i < |s| ==> s[i] != what[0]
    ensures Remove(what + s, what) == s
  {
    assert (what + s)[|what|..] == s;
    NothingToRemove(s, what);
  }

  /** With either compatibility prefix, in any case, or with none: the same name. */
  lemma PrefixesDoNotMatter(name: string, prefix: string)
    requires forall i :: 0 <= i < |name| ==> name[i] != '_'
    requires Upper(prefix) == "" || Upper(prefix) == FUTURE || Upper(prefix) == WORKSHEET
    ensures FunctionName(prefix + name) == Upper(name)
  {
    var up := Upper(name);
    assert Upper(prefix + name) == Upper(prefix) + up;
    NothingToRemove(up, WORKSHEET);
    NothingToRemove(up, FUTURE);
    if Upper(prefix) == "" {
      assert "" + up == up;
    } else if Upper(prefix) == WORKSHEET {
      RemoveInFront(up, WORKSHEET);
    } else {
      FutureIsNotWorksheet(up);
      RemoveInFront(up, FUTURE);
    }
  }

  lemma NothingToRemoveButFirst(s: string, what: string)
    requires what != "" && s != "" && !(what <= s) && forall i :: 1 <= i < |s| ==> s[i] != what[0]
    ensures Remove(s, what) == s
  {
    NothingToRemove(s[1..], what);
  }

  lemma FutureIsNotWorksheet(up: string)
    requires forall i :: 0 <= i < |up| ==> up[i] != '_'
    ensures Remove(FUTURE + up, WORKSHEET) == FUTURE + up
  {
    hide Remove;
    var s := FUTURE + up;
    assert up != "" ==> s[6] == up[0] != WORKSHEET[6];
    assert forall i :: 1 <= i < |s| ==> s[i] == if i < 6 then FUTURE[i] else up[i - 6];
    NothingToRemoveButFirst(s, WORKSHEET);
  }

  // ---------------------------------------------------------------- the two texts

  /** The token as pieces of the result, before references are replaced. */
  function TokenPieces(t: Token): seq<Piece>
  {
    match t
    case FuncOpen(value) => [Literal(FunctionName(value))]
    case Range(pieces) => pieces
    case WhiteSpace(_) => []
    case Other(value) => [Literal(value)]
  }

  function Pieces(tokens: seq<Token>): (r: seq<Piece>)
    ensures TokensOk(tokens) ==> PiecesOk(r)
  {
    if tokens == [] then [] else Pieces(tokens[..|tokens| - 1]) + TokenPieces(tokens[|tokens| - 1])
  }

  /** The pieces as one text, references in R1C1 form relative to `origin`. */
  function Render(pieces: seq<Piece>, origin: Cell): string
    requires PiecesOk(pieces)
  {
    if pieces == [] then ""
    else
      (if pieces[0].Literal? then pieces[0].text else Encode(Parse(pieces[0].cell), origin))
      + Render(pieces[1..], origin)
  }

  function Prefixed(s: string): string { if s != "" && s[0] == '=' then s else "=" + s }

  function NormalForm(tokens: seq<Token>, origin: Cell): string
    requires TokensOk(tokens)
  {
    Prefixed(Render(Pieces(tokens), origin))
  }

  lemma {:induction false} RenderConcat(a: seq<Piece>, b: seq<Piece>, origin: Cell)
    requires PiecesOk(a) && PiecesOk(b)
    ensures PiecesOk(a + b) && Render(a + b, origin) == Render(a, origin) + Render(b, origin)
  {
    hide IsCellText, Encode, Parse;
    if a == [] {
      assert a + b == b;
    } else {
      assert (a + b)[1..] == a[1..] + b;
      RenderConcat(a[1..], b, origin);
    }
  }

  lemma RenderNothing(origin: Cell)
    ensures Render([], origin) == ""
  {
  }

  lemma RenderOne(p: Piece, origin: Cell)
    requires PiecesOk([p])
    ensures p.Literal? ==> Render([p], origin) == p.text
    ensures p.Reference? ==> IsCellText(p.cell) && Render([p], origin) == Encode(Parse(p.cell), origin)
  {
    hide IsCellText, Encode, Parse;
    assert [p][0] == p && [p][1..] == [];
  }

  /** `CELL_REFERENCE_RE.sub` on a range operand. */
  method Substitute(pieces: seq<Piece>, origin: Cell) returns (value: string)
    requires PiecesOk(pieces)
    ensures value == Render(pieces, origin)
  {
    hide IsCellText, Encode, Parse, Render;
    value := "";
    RenderNothing(origin);
    for k := 0 to |pieces|
      invariant value == Render(pieces[..k], origin)
    {
      assert pieces[..k + 1] == pieces[..k] + [pieces[k]];
      RenderConcat(pieces[..k], [pieces[k]], origin);
      RenderOne(pieces[k], origin);
      value := value + (if pieces[k].Literal? then pieces[k].text else Encode(Parse(pieces[k].cell), origin));
    }
    assert pieces[..|pieces|] == pieces;
  }

  /** `normalize_formula`. */
  method NormalizeFormula(tokens: seq<Token>, origin: Cell) returns (result: string)
    requires TokensOk(tokens)
    ensures result == NormalForm(tokens, origin)
  {
    hide IsCellText, FunctionName, Render;
    result := "";
    RenderNothing(origin);
    for k := 0 to |tokens|
      invariant result == Render(Pieces(tokens[..k]), origin)
    {
      var value;
      match tokens[k] {
        case FuncOpen(v) => value := FunctionName(v);
        case Range(pieces) => value := Substitute(pieces, origin);
        case WhiteSpace(_) => value := "";
        case Other(v) => value := v;
      }
      RenderNothing(origin);
      if !tokens[k].Range? && !tokens[k].WhiteSpace? { RenderOne(TokenPieces(tokens[k])[0], origin); }
      assert value == Render(TokenPieces(tokens[k]), origin);
      assert tokens[..k + 1][..k] == tokens[..k];
      RenderConcat(Pieces(tokens[..k]), TokenPieces(tokens[k]), origin);
      result := result + value;
    }
    assert tokens[..|tokens|] == tokens;
    if result == "" || result[0] != '=' { result := "=" + result; }
  }

  // ---------------------------------------------------------------- the skeleton

  /** The operand as it stands in the formula. */
  function Raw(pieces: seq<Piece>): string
  {
    if pieces == [] then ""
    else (if pieces[0].Literal? then pieces[0].text else pieces[0].cell.column + pieces[0].cell.row) + Raw(pieces[1..])
  }

  const BROKEN := "#REF!"

  /** `"#REF!" in value`. */
  predicate HasBroken(s: string) { exists i :: 0 <= i <= |s| && BrokenAt(s, i) }

  predicate BrokenAt(s: string, i: int) { 0 <= i && i + |BROKEN| <= |s| && s[i..i + |BROKEN|] == BROKEN }

  function SkeletonPart(t: Token): string
  {
    match t
    case FuncOpen(value) => FunctionName(value)
    case Range(pieces) => if HasBroken(Raw(pieces)) then BROKEN else "<REF>"
    case WhiteSpace(_) => ""
    case Other(value) => value
  }

  function Joined(tokens: seq<Token>): string
  {
    if tokens == [] then "" else Joined(tokens[..|tokens| - 1]) + SkeletonPart(tokens[|tokens| - 1])
  }

  /** `formula_skeleton`. */
  method FormulaSkeleton(tokens: seq<Token>) returns (result: string)
    ensures result == Prefixed(Joined(tokens))
  {
    result := "";
    for k := 0 to |tokens|
      invariant result == Joined(tokens[..k])
    {
      assert tokens[..k + 1][..k] == tokens[..k];
      result := result + SkeletonPart(tokens[k]);
    }
    assert tokens[..|tokens|] == tokens;
    if result == "" || result[0] != '=' { result := "=" + result; }
  }

  // ---------------------------------------------------------------- fill-copies

  predicate SameKind(p: Piece, q: Piece)
  {
    if p.Literal? then q == p else q.Reference? && IsCellText(p.cell) && IsCellText(q.cell)
  }

  /** Alike but for the references. */
  predicate SameShape(ps: seq<Piece>, qs: seq<Piece>)
  {
    |ps| == |qs| && forall i :: 0 <= i < |ps| ==> SameKind(ps[i], qs[i])
  }

  predicate FilledPiece(p: Piece, from_: Cell, q: Piece, to: Cell)
    requires SameKind(p, q)
  {
    p.Reference? ==> Parse(q.cell) == Filled(Parse(p.cell), from_, to)
  }

  /** Every reference of the one is the fill-copy of the other's. */
  predicate IsFill(ps: seq<Piece>, from_: Cell, qs: seq<Piece>, to: Cell)
    requires SameShape(ps, qs)
  {
    forall i :: 0 <= i < |ps| ==> FilledPiece(ps[i], from_, qs[i], to)
  }

  lemma {:induction false} FillRendersAlike(ps: seq<Piece>, from_: Cell, qs: seq<Piece>, to: Cell)
    requires SameShape(ps, qs) && IsFill(ps, from_, qs, to)
    ensures PiecesOk(ps) && PiecesOk(qs) && Render(ps, from_) == Render(qs, to)
  {
    hide IsCellText, Encode;
    if ps != [] {
      assert SameKind(ps[0], qs[0]) && FilledPiece(ps[0], from_, qs[0], to);
      assert forall i :: 0 <= i < |ps[1..]| ==> ps[1..][i] == ps[i + 1] && qs[1..][i] == qs[i + 1];
      FillRendersAlike(ps[1..], from_, qs[1..], to);
      if ps[0].Reference? { SameTextExactlyWhenFilled(Parse(ps[0].cell), from_, Parse(qs[0].cell), to); }
    }
  }

  /** The literal text up to the first reference, and the pieces from there on. */
  function Lead(ps: seq<Piece>): string
  {
    if ps == [] || ps[0].Reference? then "" else ps[0].text + Lead(ps[1..])
  }

  function AfterLead(ps: seq<Piece>): (r: seq<Piece>)
    ensures r != [] ==> r[0].Reference?
  {
    if ps == [] || ps[0].Reference? then ps else AfterLead(ps[1..])
  }

  lemma {:induction false} RenderByLead(ps: seq<Piece>, origin: Cell)
    requires PiecesOk(ps)
    ensures PiecesOk(AfterLead(ps)) && Render(ps, origin) == Lead(ps) + Render(AfterLead(ps), origin)
    ensures AfterLead(ps) != [] ==> Render(AfterLead(ps), origin) != "" && Render(AfterLead(ps), origin)[0] == 'R'
  {
    hide IsCellText, Encode;
    if ps == [] {
    } else if ps[0].Reference? {
      EncodedHalves(Parse(ps[0].cell), origin);
    } else {
      RenderByLead(ps[1..], origin);
    }
  }

  lemma {:induction false} SameLead(ps: seq<Piece>, qs: seq<Piece>)
    requires SameShape(ps, qs)
    ensures Lead(ps) == Lead(qs) && |AfterLead(ps)| == |AfterLead(qs)|
  {
    hide IsCellText;
    if ps != [] {
      assert SameKind(ps[0], qs[0]);
      assert forall i :: 0 <= i < |ps[1..]| ==> ps[1..][i] == ps[i + 1] && qs[1..][i] == qs[i + 1];
      SameLead(ps[1..], qs[1..]);
    }
  }

  /** A text that is shifted by a text without R onto itself has no R either. */
  lemma {:induction false} ShiftedHasNoR(u: string, t: string, i: nat)
    requires u != "" && (forall k :: 0 <= k < |u| ==> u[k] != 'R') && t <= u + t && i < |u + t|
    ensures (u + t)[i] != 'R'
    decreases i
  {
    if i >= |u| {
      assert (u + t)[i] == t[i - |u|] == (u + t)[i - |u|];
      ShiftedHasNoR(u, t, i - |u|);
    }
  }

  /** Where two texts agree that start with a reference each and go on with the same
      literal up to the next reference or the end, the references are the same text. */
  lemma SameReferenceText(e: string, f: string, t: string, x: string, y: string)
    requires e + (t + x) == f + (t + y) && |e| <= |f|
    requires forall k :: 1 <= k < |f| ==> f[k] != 'R'
    requires e != "" && (x == "" <==> y == "") && (x != "" ==> x[0] == 'R' == y[0])
    ensures e == f
  {
    var u := f[|e|..];
    var whole := e + (t + x);
    assert e == whole[..|e|] == f[..|e|];
    assert f == e + u;
    assert t + x == whole[|e|..] == (f + (t + y))[|e|..] == u + (t + y);
    assert u + (t + y) == (u + t) + y;
    if u != "" {
      assert forall k :: 0 <= k < |u| ==> u[k] == f[|e| + k];
      assert t == (t + x)[..|t|] == (u + t)[..|t|];
      if x != "" {
        assert (t + x)[|t|] == 'R' && ((u + t) + y)[|t|] == (u + t)[|t|];
        ShiftedHasNoR(u, t, |t|);
      }
    }
  }

  lemma {:induction false} SameRenderingIsFill(ps: seq<Piece>, from_: Cell, qs: seq<Piece>, to: Cell)
    requires SameShape(ps, qs) && PiecesOk(ps) && PiecesOk(qs) && Render(ps, from_) == Render(qs, to)
    ensures IsFill(ps, from_, qs, to)
    decreases |ps|
  {
    hide IsCellText, Encode;
    if ps != [] {
      var ps', qs' := ps[1..], qs[1..];
      assert SameKind(ps[0], qs[0]);
      assert forall i :: 0 <= i < |ps'| ==> ps'[i] == ps[i + 1] && qs'[i] == qs[i + 1];
      if ps[0].Literal? {
        SameTail(ps[0].text, Render(ps', from_), Render(qs', to));
      } else {
        ReferenceStep(ps, from_, qs, to);
      }
      SameRenderingIsFill(ps', from_, qs', to);
      assert FilledPiece(ps[0], from_, qs[0], to);
    }
  }

  lemma SameTail(a: string, x: string, y: string)
    requires a + x == a + y
    ensures x == y
  {
    assert x == (a + x)[|a|..] == (a + y)[|a|..] == y;
  }

  lemma ReferenceStep(ps: seq<Piece>, from_: Cell, qs: seq<Piece>, to: Cell)
    requires SameShape(ps, qs) && PiecesOk(ps) && PiecesOk(qs) && Render(ps, from_) == Render(qs, to)
    requires ps != [] && ps[0].Reference? && qs[0].Reference?
    ensures PiecesOk(ps[1..]) && PiecesOk(qs[1..]) && Render(ps[1..], from_) == Render(qs[1..], to)
    ensures IsCellText(ps[0].cell) && IsCellText(qs[0].cell)
            && Parse(qs[0].cell) == Filled(Parse(ps[0].cell), from_, to)
  {
    hide IsCellText, Encode, Lead, AfterLead;
    var ps', qs' := ps[1..], qs[1..];
    assert forall i :: 0 <= i < |ps'| ==> ps'[i] == ps[i + 1] && qs'[i] == qs[i + 1];
    var e, f := Encode(Parse(ps[0].cell), from_), Encode(Parse(qs[0].cell), to);
    EncodedHasOneR(Parse(ps[0].cell), from_);
    EncodedHasOneR(Parse(qs[0].cell), to);
    SameLead(ps', qs');
    RenderByLead(ps', from_);
    RenderByLead(qs', to);
    RenderNothing(from_);
    RenderNothing(to);
    var x, y := Render(AfterLead(ps'), from_), Render(AfterLead(qs'), to);
    if |e| <= |f| { SameReferenceText(e, f, Lead(ps'), x, y); } else { SameReferenceText(f, e, Lead(ps'), y, x); }
    SameTail(e, Render(ps', from_), Render(qs', to));
    SameTextExactlyWhenFilled(Parse(ps[0].cell), from_, Parse(qs[0].cell), to);
  }

  lemma EncodedHasOneR(r: Ref, origin: Cell)
    requires r.Valid()
    ensures Encode(r, origin) != "" && Encode(r, origin)[0] == 'R'
    ensures forall k :: 1 <= k < |Encode(r, origin)| ==> Encode(r, origin)[k] != 'R'
  {
    hide Encode, PartText;
    EncodedHalves(r, origin);
  }

  lemma PrefixedAlike(ps: seq<Piece>, from_: Cell, qs: seq<Piece>, to: Cell)
    requires SameShape(ps, qs) && PiecesOk(ps) && PiecesOk(qs)
    ensures Prefixed(Render(ps, from_)) == Prefixed(Render(qs, to)) <==> Render(ps, from_) == Render(qs, to)
  {
    hide IsCellText, Encode, Render, Lead, AfterLead;
    SameLead(ps, qs);
    RenderByLead(ps, from_);
    RenderByLead(qs, to);
    var a, b := Render(ps, from_), Render(qs, to);
    RenderNothing(from_);
    RenderNothing(to);
    assert (a != "" && a[0] == '=') <==> (b != "" && b[0] == '=');
    if "=" + a == "=" + b { SameTail("=", a, b); }
  }

  /** Two formulas alike but for their references, in two cells, have the same normal form
      exactly when each reference of the one is the fill-copy of the other's; whatever
      literals stand between and around the references. */
  lemma SameNormalFormExactlyWhenFilled(ts: seq<Token>, from_: Cell, ts': seq<Token>, to: Cell)
    requires TokensOk(ts) && TokensOk(ts') && SameShape(Pieces(ts), Pieces(ts'))
    ensures NormalForm(ts, from_) == NormalForm(ts', to) <==> IsFill(Pieces(ts), from_, Pieces(ts'), to)
  {
    hide IsCellText, Pieces, SameShape, IsFill, Render;
    PrefixedAlike(Pieces(ts), from_, Pieces(ts'), to);
    if IsFill(Pieces(ts), from_, Pieces(ts'), to) { FillRendersAlike(Pieces(ts), from_, Pieces(ts'), to); }
    if Render(Pieces(ts), from_) == Render(Pieces(ts'), to) { SameRenderingIsFill(Pieces(ts), from_, Pieces(ts'), to); }
  }

  // ---------------------------------------------------------------- skeletons

  /** A cell reference can neither contain a piece of `#REF!` that ends it nor continue one. */
  lemma BrokenAroundCell(a: string, c: string, b: string)
    requires c != "" && IsDigit(c[|c| - 1]) && forall i :: 0 <= i < |c| ==> c[i] != '!'
    ensures HasBroken(a + (c + b)) <==> HasBroken(a) || HasBroken(b)
  {
    var s := a + (c + b);
    if i: int :| BrokenAt(s, i) {
      assert s[i + 4] == s[i..i + 5][4] == '!';
      assert i + 4 < |a| || i + 4 >= |a| + |c|;
      assert forall m :: i <= m < i + 5 ==> s[m] == BROKEN[m - i] && !IsDigit(s[m]);
      assert s[|a| + |c| - 1] == c[|c| - 1];
      if i + 4 < |a| {
        assert a[i..i + 5] == s[i..i + 5] && BrokenAt(a, i);
      } else {
        assert b[i - |a| - |c|..i - |a| - |c| + 5] == s[i..i + 5] && BrokenAt(b, i - |a| - |c|);
      }
    }
    if i: int :| BrokenAt(a, i) {
      assert s[i..i + 5] == a[i..i + 5] && BrokenAt(s, i);
    }
    if i: int :| BrokenAt(b, i) {
      var j := |a| + |c| + i;
      assert s[j..j + 5] == b[i..i + 5] && BrokenAt(s, j);
    }
  }

  lemma CellTextEndsInDigit(m: CellText)
    requires IsCellText(m)
    ensures var c := m.column + m.row; c != "" && IsDigit(c[|c| - 1]) && forall i :: 0 <= i < |c| ==> c[i] != '!'
  {
    var d := DropDollar(m.column);
    assert forall i :: 0 <= i < |d| ==> IsCapital(Upper(d)[i]);
    assert forall i :: 0 <= i < |m.column| ==> m.column[i] == '$' || m.column[i] in d;
  }

  lemma {:induction false} SameBrokenness(before: string, ps: seq<Piece>, qs: seq<Piece>)
    requires SameShape(ps, qs)
    ensures HasBroken(before + Raw(ps)) <==> HasBroken(before + Raw(qs))
    decreases |ps|
  {
    hide IsCellText, HasBroken;
    if ps != [] {
      assert SameKind(ps[0], qs[0]);
      assert forall i :: 0 <= i < |ps[1..]| ==> ps[1..][i] == ps[i + 1] && qs[1..][i] == qs[i + 1];
      if ps[0].Literal? {
        SameBrokenness(before + ps[0].text, ps[1..], qs[1..]);
        assert before + Raw(ps) == before + ps[0].text + Raw(ps[1..]);
        assert before + Raw(qs) == before + ps[0].text + Raw(qs[1..]);
      } else {
        CellTextEndsInDigit(ps[0].cell);
        CellTextEndsInDigit(qs[0].cell);
        SameBrokenness("", ps[1..], qs[1..]);
        assert "" + Raw(ps[1..]) == Raw(ps[1..]) && "" + Raw(qs[1..]) == Raw(qs[1..]);
        BrokenAroundCell(before, ps[0].cell.column + ps[0].cell.row, Raw(ps[1..]));
        BrokenAroundCell(before, qs[0].cell.column + qs[0].cell.row, Raw(qs[1..]));
      }
    }
  }

  predicate SameToken(t: Token, t': Token)
  {
    match t
    case Range(ps) => t'.Range? && SameShape(ps, t'.pieces)
    case FuncOpen(v) => t'.FuncOpen? && FunctionName(v) == FunctionName(t'.value)
    case WhiteSpace(_) => t'.WhiteSpace?
    case Other(_) => t' == t
  }

  /** Token by token alike but for references, white space and compatibility prefixes. */
  predicate SameTokens(ts: seq<Token>, ts': seq<Token>)
  {
    |ts| == |ts'| && forall i :: 0 <= i < |ts| ==> SameToken(ts[i], ts'[i])
  }

  lemma SameTokenParts(t: Token, t': Token)
    requires SameToken(t, t')
    ensures SkeletonPart(t) == SkeletonPart(t') && SameShape(TokenPieces(t), TokenPieces(t'))
  {
    hide IsCellText, HasBroken, FunctionName, Raw;
    if t.Range? {
      SameBrokenness("", t.pieces, t'.pieces);
      assert "" + Raw(t.pieces) == Raw(t.pieces) && "" + Raw(t'.pieces) == Raw(t'.pieces);
    }
  }

  lemma SameShapeConcat(a: seq<Piece>, b: seq<Piece>, a': seq<Piece>, b': seq<Piece>)
    requires SameShape(a, a') && SameShape(b, b')
    ensures SameShape(a + b, a' + b')
  {
    hide SameKind;
  }

  /** Formulas that differ in their references only have the same skeleton; so every
      fill-copy has. */
  lemma {:induction false} SkeletonIgnoresReferences(ts: seq<Token>, ts': seq<Token>)
    requires SameTokens(ts, ts')
    ensures Joined(ts) == Joined(ts') && SameShape(Pieces(ts), Pieces(ts'))
  {
    hide SameToken, SkeletonPart, TokenPieces, SameShape;
    if ts == [] {
      NoPieces();
    } else {
      var n := |ts| - 1;
      SkeletonIgnoresReferences(ts[..n], ts'[..n]);
      assert SameToken(ts[n], ts'[n]);
      SameTokenParts(ts[n], ts'[n]);
      SameShapeConcat(Pieces(ts[..n]), TokenPieces(ts[n]), Pieces(ts'[..n]), TokenPieces(ts'[n]));
    }
  }

  lemma NoPieces()
    ensures SameShape([], [])
  {
  }
}
