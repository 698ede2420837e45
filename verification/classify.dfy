/** How a bank table row is recognised as a question and what is read from it:
    the tag cell (`^[1-5][ABC]$` on the upper-cased cell), the "ans" exclusion,
    and the Bloom level (`BLOOM_RE`). */
module Classify {
  import opened Types
  import opened Text

  /** A bank table row, as the raw texts of its cells. */
  type Row = seq<string>

  function PartLetter(p: Part): char
  {
    match p
    case A => 'A'
    case B => 'B'
    case C => 'C'
  }

  /** The tag as the program spells it: `f"{unit}{part}"`, e.g. "3B". */
  function TagText(t: Tag): string
  {
    Decimal(t.unit) + [PartLetter(t.part)]
  }

  /** Distinct tags are spelled differently, so comparing tags is comparing their text. */
  lemma TagTextInjective(t: Tag, u: Tag)
    requires TagText(t) == TagText(u)
    ensures t == u
  {
    assert Decimal(t.unit) == TagText(t)[..|TagText(t)| - 1];
    assert Decimal(u.unit) == TagText(u)[..|TagText(u)| - 1];
    DecimalInjective(t.unit, u.unit);
  }

  /** A tag that can occur in the bank: unit 1 to 5. */
  predicate BankTag(t: Tag)
  {
    1 <= t.unit <= 5
  }

  /** `re.match(r'^[1-5][ABC]$', text.upper())` on a stripped cell, giving the tag it spells. */
  function ParseTag(text: string): (r: Option<Tag>)
    ensures r.Some? ==> BankTag(r.value)
  {
    var u := Upper(text);
    if |u| == 2 && '1' <= u[0] <= '5' && u[1] in {'A', 'B', 'C'} then
      Some(Tag(DigitValue(u[0]), if u[1] == 'A' then A else if u[1] == 'B' then B else C))
    else None
  }

  /** What `ParseTag` reads is what the text spells, once upper-cased. */
  lemma ParseTagSound(text: string)
    requires ParseTag(text).Some?
    ensures Upper(text) == TagText(ParseTag(text).value)
  {
    var u := Upper(text);
    assert TagText(ParseTag(text).value) == [u[0], u[1]];
  }

  /** `ParseTag` misses no tag: text that upper-cases to a bank tag's spelling is read as that tag. */
  lemma ParseTagComplete(text: string, t: Tag)
    requires BankTag(t) && Upper(text) == TagText(t)
    ensures ParseTag(text) == Some(t)
  {
    var u := Upper(text);
    assert |u| == 2 && '1' <= u[0] <= '5' && u[1] in {'A', 'B', 'C'};
    TagTextInjective(ParseTag(text).value, t);
  }

  /** Every bank tag, written in any letter case, is read back as itself. */
  lemma ParseTagText(t: Tag)
    requires BankTag(t)
    ensures ParseTag(TagText(t)) == Some(t)
    ensures ParseTag(Lower(TagText(t))) == Some(t)
  {
    var s := TagText(t);
    assert Upper(s) == s;
    assert Upper(Lower(s)) == s;
    ParseTagComplete(s, t);
    ParseTagComplete(Lower(s), t);
  }

  /** The tag a single cell spells once stripped and upper-cased, if any. */
  function CellTag(cell: string): (r: Option<Tag>)
    ensures r.Some? ==> BankTag(r.value)
  {
    ParseTag(Strip(cell))
  }

  /** The first `Some` that `f` gives on the elements of `xs`, in order: a loop that breaks at
      its first hit. */
  function FirstSome<X, Y>(xs: seq<X>, f: X -> Option<Y>): Option<Y>
  {
    if |xs| == 0 then None
    else if f(xs[0]).Some? then f(xs[0])
    else FirstSome(xs[1..], f)
  }

  /** `FirstSome` returns `f` of the first element on which `f` gives a value, and `None`
      exactly when `f` gives a value on no element. */
  lemma {:induction false} FirstSomeIsFirst<X, Y>(xs: seq<X>, f: X -> Option<Y>)
    ensures FirstSome(xs, f).Some? ==>
              exists k: nat :: k < |xs| && f(xs[k]) == FirstSome(xs, f)
                               && forall k': nat :: k' < k ==> f(xs[k']).None?
    ensures FirstSome(xs, f).None? <==> forall k: nat :: k < |xs| ==> f(xs[k]).None?
  {
    if |xs| > 0 && f(xs[0]).None? {
      var rest := xs[1..];
      FirstSomeIsFirst(rest, f);
      assert forall k: nat :: 1 <= k < |xs| ==> xs[k] == rest[k - 1];
      if FirstSome(rest, f).Some? {
        var k: nat :| k < |rest| && f(rest[k]) == FirstSome(rest, f)
                      && forall k': nat :: k' < k ==> f(rest[k']).None?;
        assert forall k': nat :: k' < k + 1 ==> f(xs[k']).None?;
      }
    }
  }

  /** The tag of a row: that of its first cell that spells a tag (the loop over `cells_text`
      that breaks at the first match). */
  function RowTag(cells: Row): (r: Option<Tag>)
    ensures r.Some? ==> BankTag(r.value)
  {
    var r := FirstSome(cells, CellTag);
    FirstSomeIsFirst(cells, CellTag);
    r
  }

  /** A row is a question row when it has a tag cell and its first cell does not mention "ans"
      (in any letter case); a row of the latter kind holds an answer. */
  predicate IsQuestionRow(cells: Row)
  {
    RowTag(cells).Some? && !Contains(Lower(Strip(cells[0])), "ans")
  }

  /** A Bloom-level character: `K` under `re.I`, which also admits the Kelvin sign. */
  predicate IsK(c: char)
  {
    c == 'K' || c == 'k' || c == '\U{212A}'
  }

  predicate IsLevelDigit(c: char)
  {
    '1' <= c <= '6'
  }

  /** `BLOOM_RE` (`K\s*([1-6])`) matches `s[p..q+1]`, with the level digit at `q`. */
  predicate BloomMatch(s: string, p: nat, q: nat)
  {
    p < q < |s| && IsK(s[p]) && AllSpace(s[p + 1..q]) && IsLevelDigit(s[q])
  }

  /** The level of a match of `BLOOM_RE` that starts at `p`, if one does. */
  function BloomAt(s: string, p: nat): (r: Option<nat>)
    ensures r.Some? ==> 1 <= r.value <= 6
  {
    if p < |s| && IsK(s[p]) then
      var q := SkipSpaces(s, p + 1);
      if q < |s| && IsLevelDigit(s[q]) then Some(DigitValue(s[q])) else None
    else None
  }

  /** `BloomAt` reports a level exactly when `BLOOM_RE` matches at `p`, and the level is the
      matched digit. */
  lemma BloomAtMatches(s: string, p: nat)
    ensures BloomAt(s, p).Some? ==> exists q: nat :: BloomMatch(s, p, q) && BloomAt(s, p).value == DigitValue(s[q])
    ensures BloomAt(s, p).None? ==> forall q: nat :: !BloomMatch(s, p, q)
  {
    if p < |s| && IsK(s[p]) {
      var q := SkipSpaces(s, p + 1);
      SkipSpacesSkipsSpaces(s, p + 1);
      forall q': nat | BloomMatch(s, p, q') ensures q' == q {
        SkipSpacesUnique(s, p + 1, q');
      }
    }
  }

  /** `BLOOM_RE.search(s[p..])`: the level of the leftmost match at or after `p`. */
  function BloomSearch(s: string, p: nat): (r: Option<nat>)
    ensures r.Some? ==> 1 <= r.value <= 6
    decreases |s| - p
  {
    if p >= |s| then None
    else if BloomAt(s, p).Some? then BloomAt(s, p)
    else BloomSearch(s, p + 1)
  }

  /** The search returns the level of the leftmost match, and nothing when no position matches. */
  lemma {:induction false} BloomSearchLeftmost(s: string, p: nat)
    ensures BloomSearch(s, p).Some? ==>
              exists p': nat, q: nat :: p <= p' && BloomMatch(s, p', q) && BloomSearch(s, p).value == DigitValue(s[q])
                                        && forall p'': nat, q': nat :: p <= p'' < p' ==> !BloomMatch(s, p'', q')
    ensures BloomSearch(s, p).None? ==> forall p': nat, q: nat :: p <= p' ==> !BloomMatch(s, p', q)
    decreases |s| - p
  {
    if p < |s| {
      BloomAtMatches(s, p);
      if BloomAt(s, p).None? {
        BloomSearchLeftmost(s, p + 1);
      }
    }
  }

  /** The text the row's Bloom level is searched in: its stripped cells joined by single spaces. */
  function RowText(cells: Row): string
  {
    Join(seq(|cells|, k requires 0 <= k < |cells| => Strip(cells[k])), " ")
  }

  /** What a question row contributes: its tag and its Bloom level, if any. */
  datatype RowInfo = RowInfo(tag: Tag, bloom: Option<nat>)

  /** The question a row describes, or `None` for any other row. */
  function ClassifyRow(cells: Row): (r: Option<RowInfo>)
    ensures r.Some? <==> IsQuestionRow(cells)
    ensures r.Some? ==> Some(r.value.tag) == RowTag(cells) && BankTag(r.value.tag)
    ensures r.Some? && r.value.bloom.Some? ==> 1 <= r.value.bloom.value <= 6
  {
    if IsQuestionRow(cells) then Some(RowInfo(RowTag(cells).value, BloomSearch(RowText(cells), 0)))
    else None
  }

  /** The questions of classified rows, in row order, numbered from `next`. */
  function Number(infos: seq<Option<RowInfo>>, next: nat): (r: seq<Question>)
    ensures |r| <= |infos|
    ensures forall i :: 0 <= i < |r| ==> r[i].id == next + i
  {
    if |infos| == 0 then []
    else if infos[0].Some? then
      var rest := Number(infos[1..], next + 1);
      assert forall i :: 1 <= i < |rest| + 1 ==> ([Question(next, infos[0].value.tag, infos[0].value.bloom)] + rest)[i] == rest[i - 1];
      [Question(next, infos[0].value.tag, infos[0].value.bloom)] + rest
    else Number(infos[1..], next)
  }

  /** The questions a sequence of classified rows yields: only the question rows contribute. */
  function Contribution(info: Option<RowInfo>, id: nat): seq<Question>
  {
    if info.Some? then [Question(id, info.value.tag, info.value.bloom)] else []
  }

  lemma {:induction false} NumberAppend(infos: seq<Option<RowInfo>>, info: Option<RowInfo>, next: nat)
    ensures Number(infos + [info], next) == Number(infos, next) + Contribution(info, next + |Number(infos, next)|)
    decreases |infos|
  {
    if |infos| == 0 {
      assert infos + [info] == [info];
    } else {
      assert (infos + [info])[1..] == infos[1..] + [info];
      if infos[0].Some? {
        NumberAppend(infos[1..], info, next + 1);
      } else {
        NumberAppend(infos[1..], info, next);
      }
    }
  }

  /** The classification of each row. */
  function ClassifyRows(rows: seq<Row>): (r: seq<Option<RowInfo>>)
    ensures |r| == |rows|
  {
    seq(|rows|, k requires 0 <= k < |rows| => ClassifyRow(rows[k]))
  }

  /** The questions of a bank, given its table rows in document order. A question's
      identifier is its position in the result, so identifiers are distinct. */
  function ExtractBank(rows: seq<Row>): (r: seq<Question>)
    ensures |r| <= |rows|
    ensures forall i :: 0 <= i < |r| ==> r[i].id == i && BankTag(r[i].tag)
  {
    var r := Number(ClassifyRows(rows), 0);
    assert forall i :: 0 <= i < |r| ==> BankTag(r[i].tag) by {
      NumberTags(ClassifyRows(rows), 0);
    }
    r
  }

  /** Every numbered question carries the tag of a classified row. */
  lemma {:induction false} NumberTags(infos: seq<Option<RowInfo>>, next: nat)
    requires forall k :: 0 <= k < |infos| && infos[k].Some? ==> BankTag(infos[k].value.tag)
    ensures forall i :: 0 <= i < |Number(infos, next)| ==> BankTag(Number(infos, next)[i].tag)
    decreases |infos|
  {
    if |infos| > 0 {
      var n := if infos[0].Some? then next + 1 else next;
      NumberTags(infos[1..], n);
    }
  }

  /** Number of question rows. */
  function CountQuestionRows(rows: seq<Row>): nat
  {
    if |rows| == 0 then 0 else (if IsQuestionRow(rows[0]) then 1 else 0) + CountQuestionRows(rows[1..])
  }

  /** Number of classified rows that describe a question. */
  function CountSome(infos: seq<Option<RowInfo>>): nat
  {
    if |infos| == 0 then 0 else (if infos[0].Some? then 1 else 0) + CountSome(infos[1..])
  }

  /** Numbering keeps exactly the rows that describe a question. */
  lemma {:induction false} NumberLength(infos: seq<Option<RowInfo>>, next: nat)
    ensures |Number(infos, next)| == CountSome(infos)
    decreases |infos|
  {
    if |infos| > 0 {
      NumberLength(infos[1..], if infos[0].Some? then next + 1 else next);
    }
  }

  /** Classification counts the question rows. */
  lemma {:induction false} ClassifyRowsCount(rows: seq<Row>)
    ensures CountSome(ClassifyRows(rows)) == CountQuestionRows(rows)
    decreases |rows|
  {
    if |rows| > 0 {
      ClassifyRowsCount(rows[1..]);
      assert ClassifyRows(rows)[1..] == ClassifyRows(rows[1..]);
    }
  }

  /** Reading one more row adds that row's question at the end when it is a question row and
      nothing otherwise. */
  lemma ExtractBankAppend(rows: seq<Row>, row: Row)
    ensures ExtractBank(rows + [row]) == ExtractBank(rows) + Contribution(ClassifyRow(row), |ExtractBank(rows)|)
  {
    assert ClassifyRows(rows + [row]) == ClassifyRows(rows) + [ClassifyRow(row)];
    NumberAppend(ClassifyRows(rows), ClassifyRow(row), 0);
  }

  /** The bank holds exactly one question per question row. */
  lemma ExtractBankCount(rows: seq<Row>)
    ensures |ExtractBank(rows)| == CountQuestionRows(rows)
  {
    NumberLength(ClassifyRows(rows), 0);
    ClassifyRowsCount(rows);
  }
}
