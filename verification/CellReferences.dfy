/** Spreadsheet cell references: A1 text with base-26 columns, and the R1C1 text of
    scripts/formula_inventory.py, relative to the cell that holds the formula. */
module CellReferences {
  import opened Texts

  // ---------------------------------------------------------------- columns

  predicate IsCapital(c: char) { 'A' <= c <= 'Z' }

  predicate Capitals(s: string) { forall i :: 0 <= i < |s| ==> IsCapital(s[i]) }

  function UpperChar(c: char): char { if 'a' <= c <= 'z' then (c as int - 32) as char else c }

  function Upper(s: string): (r: string)
    ensures |r| == |s| && forall i :: 0 <= i < |s| ==> r[i] == UpperChar(s[i])
  {
    seq(|s|, (i: nat) requires i < |s| => UpperChar(s[i]))
  }

  /** `column_index_from_string` on capitals: A is 1, Z is 26, AA is 27. */
  function ColumnIndex(s: string): nat
    requires Capitals(s)
  {
    if s == "" then 0 else 26 * ColumnIndex(s[..|s| - 1]) + (s[|s| - 1] as int - 'A' as int + 1)
  }

  function ColumnName(n: nat): (s: string)
    ensures Capitals(s) && (s != "" <==> n > 0)
  {
    if n == 0 then "" else ColumnName((n - 1) / 26) + [('A' as int + (n - 1) % 26) as char]
  }

  /** Columns and their names correspond one to one. */
  lemma {:induction false} IndexOfName(n: nat)
    ensures ColumnIndex(ColumnName(n)) == n
  {
    if n > 0 {
      IndexOfName((n - 1) / 26);
      assert ColumnName(n)[..|ColumnName(n)| - 1] == ColumnName((n - 1) / 26);
    }
  }

  lemma {:induction false} NameOfIndex(s: string)
    requires Capitals(s)
    ensures ColumnName(ColumnIndex(s)) == s
  {
    if s != "" {
      var rest, d := s[..|s| - 1], s[|s| - 1] as int - 'A' as int;
      NameOfIndex(rest);
      assert (ColumnIndex(s) - 1) / 26 == ColumnIndex(rest) && (ColumnIndex(s) - 1) % 26 == d;
      assert s == rest + [s[|s| - 1]];
    }
  }

  // ---------------------------------------------------------------- A1 text

  /** A cell reference; relative parts may point anywhere, absolute ones only into the sheet. */
  datatype Ref = Ref(columnFixed: bool, column: int, rowFixed: bool, row: int)
  {
    predicate Valid() { (columnFixed ==> column >= 0) && (rowFixed ==> row >= 0) }
  }

  datatype Cell = Cell(row: int, column: int)

  /** The two groups of `CELL_REFERENCE_RE`. */
  datatype CellText = CellText(column: string, row: string)

  function DropDollar(s: string): string { if s != "" && s[0] == '$' then s[1..] else s }

  /** A match of the expression: one to three letters of either case, at least one digit,
      a dollar before each at will. */
  predicate IsCellText(m: CellText)
  {
    && 1 <= |DropDollar(m.column)| <= 3 && Capitals(Upper(DropDollar(m.column)))
    && DropDollar(m.row) != "" && AllDigits(DropDollar(m.row))
  }

  function Parse(m: CellText): (r: Ref)
    requires IsCellText(m)
    ensures r.Valid()
  {
    Ref(m.column[..1] == "$", ColumnIndex(Upper(DropDollar(m.column))),
        m.row[..1] == "$", DigitsValue(DropDollar(m.row)))
  }

  function Dollar(fixed: bool): string { if fixed then "$" else "" }

  /** The usual way to write a reference. */
  function Print(r: Ref): CellText
    requires r.column >= 1 && r.row >= 0
  {
    CellText(Dollar(r.columnFixed) + ColumnName(r.column), Dollar(r.rowFixed) + NatText(r.row))
  }

  lemma PrintedColumn(fixed: bool, n: nat)
    requires n > 0
    ensures var t := Dollar(fixed) + ColumnName(n);
            t != "" && (t[..1] == "$" <==> fixed) && DropDollar(t) == ColumnName(n)
                && Upper(DropDollar(t)) == ColumnName(n)
  {
    var name := ColumnName(n);
    assert IsCapital(name[0]);
    if fixed { assert ("$" + name)[1..] == name; } else { assert "" + name == name; }
    assert forall i :: 0 <= i < |name| ==> IsCapital(name[i]);
  }

  lemma PrintedRow(fixed: bool, n: nat)
    ensures var t := Dollar(fixed) + NatText(n);
            t != "" && (t[..1] == "$" <==> fixed) && DropDollar(t) == NatText(n)
  {
    hide NatText, DigitsValue;
    var text := NatText(n);
    assert IsDigit(text[0]);
    if fixed { assert ("$" + text)[1..] == text; } else { assert "" + text == text; }
  }

  lemma ColumnLengthStep(n: nat, bound: nat)
    ensures |ColumnName(n)| <= bound + 1 <==> n == 0 || |ColumnName((n - 1) / 26)| <= bound
  {
  }

  /** Three letters reach column 18278. */
  lemma ColumnLength(n: nat)
    ensures |ColumnName(n)| <= 3 <==> n <= 18_278
  {
    hide ColumnName;
    ColumnLengthStep(n, 2);
    if n > 0 {
      var a := (n - 1) / 26;
      ColumnLengthStep(a, 1);
      if a > 0 {
        var b := (a - 1) / 26;
        ColumnLengthStep(b, 0);
        assert b > 26 <==> a > 702;
      }
    }
  }

  /** What is printed reads back as the same reference. */
  lemma ParsePrinted(r: Ref)
    requires 1 <= r.column <= 18_278 && r.row >= 0
    ensures IsCellText(Print(r)) && Parse(Print(r)) == r
  {
    PrintedColumn(r.columnFixed, r.column);
    PrintedRow(r.rowFixed, r.row);
    ColumnLength(r.column);
    IndexOfName(r.column);
  }

  // ---------------------------------------------------------------- R1C1 text

  /** One half of `_r1c1_reference`. */
  function PartText(letter: char, fixed: bool, value: int, origin: int): string
    requires fixed ==> value >= 0
  {
    if fixed then [letter] + NatText(value)
    else if value == origin then [letter]
    else [letter] + ("[" + IntText(value - origin) + "]")
  }

  /** `_r1c1_reference` on a parsed reference. */
  function Encode(r: Ref, origin: Cell): string
    requires r.Valid()
  {
    PartText('R', r.rowFixed, r.row, origin.row) + PartText('C', r.columnFixed, r.column, origin.column)
  }

  function ParseInt(s: string): Option<int>
  {
    if s != "" && s[0] == '-' then if AllDigits(s[1..]) then Some(-(DigitsValue(s[1..]) as int)) else None
    else if AllDigits(s) then Some(DigitsValue(s)) else None
  }

  datatype Part = Part(fixed: bool, value: int)

  /** Reading one half, after its letter. */
  function DecodePart(s: string, origin: int): Option<Part>
  {
    if s == "" then Some(Part(false, origin))
    else if s[0] == '[' && s[|s| - 1] == ']' && |s| >= 2 then
      var n := ParseInt(s[1..|s| - 1]);
      if n.Some? then Some(Part(false, origin + n.value)) else None
    else if AllDigits(s) then Some(Part(true, DigitsValue(s)))
    else None
  }

  /** Reading an R1C1 reference in a given cell. */
  function Decode(s: string, origin: Cell): Option<Ref>
  {
    var i := IndexOf(s, 'C');
    if s == "" || s[0] != 'R' || i == |s| then None
    else
      var row, column := DecodePart(s[1..i], origin.row), DecodePart(s[i + 1..], origin.column);
      if row.Some? && column.Some?
      then Some(Ref(column.value.fixed, column.value.value, row.value.fixed, row.value.value))
      else None
  }

  /** The characters that may follow the letter of a part. */
  predicate InPart(c: char) { IsDigit(c) || c == '-' || c == '[' || c == ']' }

  lemma PartCharacters(letter: char, fixed: bool, value: int, origin: int)
    requires fixed ==> value >= 0
    ensures var t := PartText(letter, fixed, value, origin);
            t != "" && t[0] == letter && forall i :: 1 <= i < |t| ==> InPart(t[i])
  {
    hide NatText;
  }

  lemma DecodePartText(letter: char, fixed: bool, value: int, origin: int)
    requires fixed ==> value >= 0
    ensures DecodePart(PartText(letter, fixed, value, origin)[1..], origin) == Some(Part(fixed, value))
  {
    hide NatText;
    var t := PartText(letter, fixed, value, origin);
    if fixed {
      assert t[1..] == NatText(value);
      assert IsDigit(t[1..][0]);
    } else if value == origin {
      assert t[1..] == "";
    } else {
      var text := IntText(value - origin);
      assert t[1..] == "[" + text + "]";
      assert t[1..][1..|t[1..]| - 1] == text;
      ParseIntText(value - origin);
    }
  }

  lemma ParseIntText(n: int)
    ensures ParseInt(IntText(n)) == Some(n)
  {
    hide NatText;
    if n < 0 {
      assert IntText(n)[1..] == NatText(-n);
    } else {
      assert IsDigit(IntText(n)[0]);
    }
  }

  /** Where the two halves of an encoded reference meet. */
  lemma EncodedHalves(r: Ref, origin: Cell)
    requires r.Valid()
    ensures var a := PartText('R', r.rowFixed, r.row, origin.row);
            var b := PartText('C', r.columnFixed, r.column, origin.column);
            && Encode(r, origin) == a + b && a != "" && a[0] == 'R' && b != "" && b[0] == 'C'
            && (forall i :: 1 <= i < |a| ==> InPart(a[i])) && (forall i :: 1 <= i < |b| ==> InPart(b[i]))
  {
    hide PartText;
    PartCharacters('R', r.rowFixed, r.row, origin.row);
    PartCharacters('C', r.columnFixed, r.column, origin.column);
  }

  /** The encoding is invertible, given the cell. */
  lemma DecodeEncoded(r: Ref, origin: Cell)
    requires r.Valid()
    ensures Decode(Encode(r, origin), origin) == Some(r)
  {
    hide PartText, DecodePart;
    EncodedHalves(r, origin);
    var a, b := PartText('R', r.rowFixed, r.row, origin.row), PartText('C', r.columnFixed, r.column, origin.column);
    var s := a + b;
    var i := IndexOf(s, 'C');
    assert s[|a|] == 'C';
    assert forall k :: 0 <= k < |a| ==> s[k] == a[k] != 'C';
    assert i == |a|;
    assert s[1..i] == a[1..] && s[i + 1..] == b[1..];
    DecodePartText('R', r.rowFixed, r.row, origin.row);
    DecodePartText('C', r.columnFixed, r.column, origin.column);
  }

  // ---------------------------------------------------------------- filling

  /** Copying a formula from one cell to another moves the relative parts along. */
  function Filled(r: Ref, from_: Cell, to: Cell): (r': Ref)
    ensures r.Valid() ==> r'.Valid()
  {
    Ref(r.columnFixed, if r.columnFixed then r.column else r.column + to.column - from_.column,
        r.rowFixed, if r.rowFixed then r.row else r.row + to.row - from_.row)
  }

  lemma PartMovesAlong(letter: char, value: int, origin: int, move: int)
    ensures PartText(letter, false, value + move, origin + move) == PartText(letter, false, value, origin)
  {
    hide IntText;
    assert value + move - (origin + move) == value - origin;
  }

  lemma FilledEncodesAlike(r: Ref, from_: Cell, to: Cell)
    requires r.Valid()
    ensures Encode(Filled(r, from_, to), to) == Encode(r, from_)
  {
    hide PartText;
    PartMovesAlong('R', r.row, from_.row, to.row - from_.row);
    PartMovesAlong('C', r.column, from_.column, to.column - from_.column);
    FixedPart('R', r.row, from_.row, to.row);
    FixedPart('C', r.column, from_.column, to.column);
  }

  lemma FixedPart(letter: char, value: int, origin: int, origin': int)
    ensures value >= 0 ==> PartText(letter, true, value, origin) == PartText(letter, true, value, origin')
  {
  }

  /** Two references in two cells have the same R1C1 text exactly when one is what filling
      makes of the other. */
  lemma SameTextExactlyWhenFilled(r: Ref, cell: Cell, r': Ref, cell': Cell)
    requires r.Valid() && r'.Valid()
    ensures Encode(r, cell) == Encode(r', cell') <==> r' == Filled(r, cell, cell')
  {
    hide Encode, Decode;
    FilledEncodesAlike(r, cell, cell');
    DecodeEncoded(r', cell');
    DecodeEncoded(Filled(r, cell, cell'), cell');
  }

  /** At the level of the matched texts, whatever their case and leading zeros; and reading
      the code in its cell and printing it gives the reference back in its usual form. */
  lemma ReferenceTexts(m: CellText, cell: Cell, m': CellText, cell': Cell)
    requires IsCellText(m) && IsCellText(m')
    ensures Encode(Parse(m), cell) == Encode(Parse(m'), cell') <==> Parse(m') == Filled(Parse(m), cell, cell')
    ensures Decode(Encode(Parse(m), cell), cell) == Some(Parse(m))
    ensures Parse(m).column >= 1
            && Print(Parse(m)).column == m.column[..|m.column| - |DropDollar(m.column)|] + Upper(DropDollar(m.column))
  {
    hide Encode, Decode, NatText;
    SameTextExactlyWhenFilled(Parse(m), cell, Parse(m'), cell');
    DecodeEncoded(Parse(m), cell);
    NameOfIndex(Upper(DropDollar(m.column)));
  }
}
