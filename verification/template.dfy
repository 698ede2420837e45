/** Slot discovery in the template: a cell is a slot when its stripped text starts with a
    number followed by `.` or `)` (`NUM_PREFIX_RE`), and slots are listed in document order. */
module Template {
  import opened Types
  import opened Text

  /** A template document: tables, each a sequence of rows, each a sequence of cell texts. */
  type Document = seq<seq<seq<string>>>

  /** `NUM_PREFIX_RE` (`^\s*(\d+)\s*[\.\)]`) matches the start of `t` with the number's digits at
      `t[i..j]` and the closing `.` or `)` at `t[k]`. */
  predicate SlotPrefix(t: string, i: nat, j: nat, k: nat)
  {
    i < j <= k < |t| && AllSpace(t[..i]) && AllDigits(t[i..j]) && AllSpace(t[j..k]) && (t[k] == '.' || t[k] == ')')
  }

  /** `NUM_PREFIX_RE.match(t)`, giving `int(m.group(1))`. */
  function PrefixNumber(t: string): Option<nat>
  {
    var i := SkipSpaces(t, 0);
    var j := SkipDigits(t, i);
    if j == i then None
    else
      var k := SkipSpaces(t, j);
      if k < |t| && (t[k] == '.' || t[k] == ')') then
        SkipDigitsSkipsDigits(t, i);
        Some(DecimalValue(t[i..j]))
      else None
  }

  /** Whenever the pattern matches, `PrefixNumber` reports that match's number; in particular
      all matches carry the same number. */
  lemma SlotPrefixDetermines(t: string, i: nat, j: nat, k: nat)
    requires SlotPrefix(t, i, j, k)
    ensures PrefixNumber(t) == Some(DecimalValue(t[i..j]))
  {
    assert t[i..j][0] == t[i];
    assert !IsSpace(t[i]);
    assert AllSpace(t[0..i]) by { assert t[0..i] == t[..i]; }
    SkipSpacesUnique(t, 0, i);
    if j < k {
      assert t[j..k][0] == t[j];
    }
    SkipDigitsUnique(t, i, j);
    SkipSpacesUnique(t, j, k);
  }

  /** `PrefixNumber` finds a number exactly when the pattern matches. */
  lemma PrefixNumberMatches(t: string)
    ensures PrefixNumber(t).Some? ==>
              exists i: nat, j: nat, k: nat :: SlotPrefix(t, i, j, k) && PrefixNumber(t).value == DecimalValue(t[i..j])
    ensures PrefixNumber(t).None? ==> forall i: nat, j: nat, k: nat :: !SlotPrefix(t, i, j, k)
  {
    var i := SkipSpaces(t, 0);
    var j := SkipDigits(t, i);
    SkipSpacesSkipsSpaces(t, 0);
    SkipDigitsSkipsDigits(t, i);
    if j > i {
      var k := SkipSpaces(t, j);
      SkipSpacesSkipsSpaces(t, j);
      if PrefixNumber(t).Some? {
        assert t[..i] == t[0..i];
        assert SlotPrefix(t, i, j, k);
      }
    }
    forall i': nat, j': nat, k': nat | SlotPrefix(t, i', j', k') ensures PrefixNumber(t).Some? {
      SlotPrefixDetermines(t, i', j', k');
    }
  }

  /** The slot number of a template cell: the cell text is stripped first. */
  function ParseSlotNumber(cell: string): Option<nat>
  {
    PrefixNumber(Strip(cell))
  }

  /** A cell reading like "12." or "7) Explain ..." is the slot with that number. */
  lemma ParseSlotNumberOfNumbered(n: nat, close: char, rest: string)
    requires close == '.' || close == ')'
    ensures ParseSlotNumber(Decimal(n) + [close] + rest) == Some(n)
  {
    var d := Decimal(n);
    var s := d + [close] + rest;
    assert s[0] == d[0];
    assert StripLeft(s) == s;
    TrimEndKeeps(s, |s|, |d|);
    var t := Strip(s);
    assert t == s[..TrimEnd(s, |s|)];
    assert t[..|d|] == d;
    assert t[0..|d|] == d;
    assert t[..0] == [];
    assert t[|d|..|d|] == [];
    assert SlotPrefix(t, 0, |d|, |d|);
    SlotPrefixDetermines(t, 0, |d|, |d|);
  }

  /** Document order: by table, then row, then cell. */
  predicate Before(a: Slot, b: Slot)
  {
    || a.table < b.table
    || (a.table == b.table && a.row < b.row)
    || (a.table == b.table && a.row == b.row && a.cell < b.cell)
  }

  predicate InDocumentOrder(ss: seq<Slot>)
  {
    forall i, j :: 0 <= i < j < |ss| ==> Before(ss[i], ss[j])
  }

  /** Joining two ordered lists, the first wholly before the second, keeps document order. */
  lemma OrderedConcat(a: seq<Slot>, b: seq<Slot>)
    requires InDocumentOrder(a) && InDocumentOrder(b)
    requires forall x, y :: x in a && y in b ==> Before(x, y)
    ensures InDocumentOrder(a + b)
  {
    forall i, j | 0 <= i < j < |a + b| ensures Before((a + b)[i], (a + b)[j]) {
      if j < |a| {
      } else if i >= |a| {
        assert (a + b)[i] == b[i - |a|] && (a + b)[j] == b[j - |a|];
      } else {
        assert (a + b)[i] in a && (a + b)[j] in b;
      }
    }
  }

  /** `s` names a cell of the document whose text carries the slot number `s.number`, as read
      by `number`. */
  predicate Numbered(number: string -> Option<nat>, doc: Document, s: Slot)
  {
    && s.table < |doc| && s.row < |doc[s.table]| && s.cell < |doc[s.table][s.row]|
    && number(doc[s.table][s.row][s.cell]) == Some(s.number)
  }

  /** The slots among the first `m` cells of row `ri` of table `ti`, `number` reading a cell's slot
      number. */
  function CellSlots(number: string -> Option<nat>, doc: Document, ti: nat, ri: nat, m: nat): seq<Slot>
    requires ti < |doc| && ri < |doc[ti]| && m <= |doc[ti][ri]|
  {
    if m == 0 then []
    else
      CellSlots(number, doc, ti, ri, m - 1)
        + match number(doc[ti][ri][m - 1])
          case Some(n) => [Slot(ti, ri, m - 1, n)]
          case None => []
  }

  /** The slots among the first `m` rows of table `ti`, row by row. */
  function TableSlots(number: string -> Option<nat>, doc: Document, ti: nat, m: nat): seq<Slot>
    requires ti < |doc| && m <= |doc[ti]|
  {
    if m == 0 then [] else TableSlots(number, doc, ti, m - 1) + CellSlots(number, doc, ti, m - 1, |doc[ti][m - 1]|)
  }

  /** The slots among the first `m` tables, table by table. */
  function DocumentSlots(number: string -> Option<nat>, doc: Document, m: nat): seq<Slot>
    requires m <= |doc|
  {
    if m == 0 then [] else DocumentSlots(number, doc, m - 1) + TableSlots(number, doc, m - 1, |doc[m - 1]|)
  }

  /** The template's slots: every table, every row, every cell, in that order. */
  function DiscoverSlots(doc: Document): seq<Slot>
  {
    DocumentSlots(ParseSlotNumber, doc, |doc|)
  }

  /** The slots of a row prefix are numbered cells of that row prefix. */
  lemma {:induction false} CellSlotsSound(number: string -> Option<nat>, doc: Document, ti: nat, ri: nat, m: nat)
    requires ti < |doc| && ri < |doc[ti]| && m <= |doc[ti][ri]|
    ensures forall s :: s in CellSlots(number, doc, ti, ri, m) ==>
              Numbered(number, doc, s) && s.table == ti && s.row == ri && s.cell < m
  {
    if m > 0 {
      CellSlotsSound(number, doc, ti, ri, m - 1);
    }
  }

  /** Every numbered cell of a row prefix is among its slots. */
  lemma {:induction false} CellSlotsComplete(number: string -> Option<nat>, doc: Document, ti: nat, ri: nat, m: nat, s: Slot)
    requires ti < |doc| && ri < |doc[ti]| && m <= |doc[ti][ri]|
    requires Numbered(number, doc, s) && s.table == ti && s.row == ri && s.cell < m
    ensures s in CellSlots(number, doc, ti, ri, m)
  {
    var prev := CellSlots(number, doc, ti, ri, m - 1);
    if s.cell < m - 1 {
      CellSlotsComplete(number, doc, ti, ri, m - 1, s);
      assert CellSlots(number, doc, ti, ri, m) == prev + CellSlots(number, doc, ti, ri, m)[|prev|..];
    } else {
      assert CellSlots(number, doc, ti, ri, m) == prev + [s];
    }
  }

  /** The slots of a row prefix are in document order. */
  lemma {:induction false} CellSlotsOrdered(number: string -> Option<nat>, doc: Document, ti: nat, ri: nat, m: nat)
    requires ti < |doc| && ri < |doc[ti]| && m <= |doc[ti][ri]|
    ensures InDocumentOrder(CellSlots(number, doc, ti, ri, m))
  {
    if m > 0 {
      CellSlotsOrdered(number, doc, ti, ri, m - 1);
      CellSlotsSound(number, doc, ti, ri, m - 1);
      var here := match number(doc[ti][ri][m - 1])
        case Some(n) => [Slot(ti, ri, m - 1, n)]
        case None => [];
      OrderedConcat(CellSlots(number, doc, ti, ri, m - 1), here);
    }
  }

  /** The slots of a table prefix are numbered cells of that table prefix. */
  lemma {:induction false} TableSlotsSound(number: string -> Option<nat>, doc: Document, ti: nat, m: nat)
    requires ti < |doc| && m <= |doc[ti]|
    ensures forall s :: s in TableSlots(number, doc, ti, m) ==> Numbered(number, doc, s) && s.table == ti && s.row < m
  {
    if m > 0 {
      TableSlotsSound(number, doc, ti, m - 1);
      CellSlotsSound(number, doc, ti, m - 1, |doc[ti][m - 1]|);
    }
  }

  /** Every numbered cell of a table prefix is among its slots. */
  lemma {:induction false} TableSlotsComplete(number: string -> Option<nat>, doc: Document, ti: nat, m: nat, s: Slot)
    requires ti < |doc| && m <= |doc[ti]|
    requires Numbered(number, doc, s) && s.table == ti && s.row < m
    ensures s in TableSlots(number, doc, ti, m)
  {
    if s.row < m - 1 {
      TableSlotsComplete(number, doc, ti, m - 1, s);
    } else {
      CellSlotsComplete(number, doc, ti, m - 1, |doc[ti][m - 1]|, s);
    }
  }

  /** The slots of a table prefix are in document order. */
  lemma {:induction false} TableSlotsOrdered(number: string -> Option<nat>, doc: Document, ti: nat, m: nat)
    requires ti < |doc| && m <= |doc[ti]|
    ensures InDocumentOrder(TableSlots(number, doc, ti, m))
  {
    if m > 0 {
      var a := TableSlots(number, doc, ti, m - 1);
      var b := CellSlots(number, doc, ti, m - 1, |doc[ti][m - 1]|);
      TableSlotsOrdered(number, doc, ti, m - 1);
      CellSlotsOrdered(number, doc, ti, m - 1, |doc[ti][m - 1]|);
      forall x, y | x in a && y in b ensures Before(x, y) {
        TableSlotsSound(number, doc, ti, m - 1);
        CellSlotsSound(number, doc, ti, m - 1, |doc[ti][m - 1]|);
      }
      OrderedConcat(a, b);
    }
  }

  /** The slots of a document prefix are numbered cells of that prefix. */
  lemma {:induction false} DocumentSlotsSound(number: string -> Option<nat>, doc: Document, m: nat)
    requires m <= |doc|
    ensures forall s :: s in DocumentSlots(number, doc, m) ==> Numbered(number, doc, s) && s.table < m
  {
    if m > 0 {
      DocumentSlotsSound(number, doc, m - 1);
      TableSlotsSound(number, doc, m - 1, |doc[m - 1]|);
    }
  }

  /** Every numbered cell of a document prefix is among its slots. */
  lemma {:induction false} DocumentSlotsComplete(number: string -> Option<nat>, doc: Document, m: nat, s: Slot)
    requires m <= |doc|
    requires Numbered(number, doc, s) && s.table < m
    ensures s in DocumentSlots(number, doc, m)
  {
    if s.table < m - 1 {
      DocumentSlotsComplete(number, doc, m - 1, s);
    } else {
      TableSlotsComplete(number, doc, m - 1, |doc[m - 1]|, s);
    }
  }

  /** The slots of a document prefix are in document order. */
  lemma {:induction false} DocumentSlotsOrdered(number: string -> Option<nat>, doc: Document, m: nat)
    requires m <= |doc|
    ensures InDocumentOrder(DocumentSlots(number, doc, m))
  {
    if m > 0 {
      var a := DocumentSlots(number, doc, m - 1);
      var b := TableSlots(number, doc, m - 1, |doc[m - 1]|);
      DocumentSlotsOrdered(number, doc, m - 1);
      TableSlotsOrdered(number, doc, m - 1, |doc[m - 1]|);
      forall x, y | x in a && y in b ensures Before(x, y) {
        DocumentSlotsSound(number, doc, m - 1);
        TableSlotsSound(number, doc, m - 1, |doc[m - 1]|);
      }
      OrderedConcat(a, b);
    }
  }

  /** A slot is discovered exactly when its cell carries its number, and the slots come in
      document order. */
  lemma DiscoverSlotsExact(doc: Document)
    ensures InDocumentOrder(DiscoverSlots(doc))
    ensures forall s :: s in DiscoverSlots(doc) <==> Numbered(ParseSlotNumber, doc, s)
  {
    DocumentSlotsOrdered(ParseSlotNumber, doc, |doc|);
    DocumentSlotsSound(ParseSlotNumber, doc, |doc|);
    forall s | Numbered(ParseSlotNumber, doc, s) ensures s in DiscoverSlots(doc) {
      DocumentSlotsComplete(ParseSlotNumber, doc, |doc|, s);
    }
  }
}
