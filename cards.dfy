/**
  The result renderer: what `showResults` decides for each record of a search reply
  (status badge, which of Pull Out / Return is enabled, the detail rows, the note
  controls) and the results container it fills, without the markup.
*/
module Cards {
  import opened Api

  /** `orderedFields`: listed first, in this order, when present. */
  const OrderedFields: seq<string> := ["Storage Area", "Level", "Partition"]

  /** Keys the generic detail loop never lists. */
  const ReservedFields: seq<string> := ["Name", "Position", "Status", "Notes"]

  /** `record[key]` is truthy: present and not the empty string. */
  predicate Truthy(r: Fields, key: string) {
    Lookup(r, key).Some? && Lookup(r, key).value != ""
  }

  /** `record.Status === "Pulled Out"`: the one test behind the card's style, badge and buttons. */
  predicate IsPulledOut(r: Fields) {
    Lookup(r, "Status") == Some("Pulled Out")
  }

  /** A `.detail-item`: its key, its value, and whether the value sits in the storage badge. */
  datatype DetailRow = DetailRow(key: string, value: string, storageBadge: bool)

  /** The row an ordered field contributes: one if its value is truthy, none otherwise. */
  function OrderedRow(r: Fields, field: string): seq<DetailRow> {
    if Truthy(r, field) then [DetailRow(field, Lookup(r, field).value, field == "Storage Area")] else []
  }

  /** The rows of the ordered fields, for the first fields of `fields`. */
  function OrderedRows(r: Fields, fields: seq<string>): seq<DetailRow>
    decreases |fields|
  {
    if fields == [] then [] else OrderedRows(r, fields[..|fields| - 1]) + OrderedRow(r, fields[|fields| - 1])
  }

  /** A key the generic loop lists: neither reserved nor one of the ordered fields. */
  predicate IsGenericKey(key: string) {
    key !in ReservedFields && key !in OrderedFields
  }

  /** The row one `(key, value)` pair contributes to the generic part. */
  function GenericRow(p: (string, string)): seq<DetailRow> {
    if IsGenericKey(p.0) && p.1 != "" then [DetailRow(p.0, p.1, false)] else []
  }

  /** The generic rows of the first pairs of a record, in key order. */
  function GenericRows(r: Fields): seq<DetailRow>
    decreases |r|
  {
    if r == [] then [] else GenericRows(r[..|r| - 1]) + GenericRow(r[|r| - 1])
  }

  /** All detail rows of a card: the ordered fields, then every other listed key. */
  function DetailRows(r: Fields): seq<DetailRow> {
    OrderedRows(r, OrderedFields) + GenericRows(r)
  }

  /** The detail block as `showResults` builds it: one loop over the ordered fields,
      one over the record's keys, each appending a row when the value is truthy. */
  method BuildDetailRows(record: Fields) returns (rows: seq<DetailRow>)
    ensures rows == DetailRows(record)
  {
    rows := [];
    for i := 0 to |OrderedFields|
      invariant rows == OrderedRows(record, OrderedFields[..i])
    {
      var fieldName := OrderedFields[i];
      var value := Lookup(record, fieldName);
      if value.Some? && value.value != "" {
        rows := rows + [DetailRow(fieldName, value.value, fieldName == "Storage Area")];
      }
      assert OrderedFields[..i + 1][..i] == OrderedFields[..i];
    }
    assert OrderedFields[..|OrderedFields|] == OrderedFields;
    ghost var ordered := rows;
    for j := 0 to |record|
      invariant rows == ordered + GenericRows(record[..j])
    {
      var (key, value) := record[j];
      if key !in ReservedFields && key !in OrderedFields && value != "" {
        rows := rows + [DetailRow(key, value, false)];
      }
      assert record[..j + 1][..j] == record[..j];
    }
    assert record[..|record|] == record;
  }

  /** The ordered rows are exactly the truthy ordered fields with their values. */
  lemma OrderedRowsMembers(r: Fields)
    ensures forall d :: d in OrderedRows(r, OrderedFields) <==>
      d.key in OrderedFields && Truthy(r, d.key) && d.value == Lookup(r, d.key).value
      && d.storageBadge == (d.key == "Storage Area")
  {
    OrderedRowsUnfold(r);
    var a, b, c := OrderedRow(r, "Storage Area"), OrderedRow(r, "Level"), OrderedRow(r, "Partition");
    forall d ensures d in a + b + c <==> d in a || d in b || d in c {
    }
  }

  /** The ordered rows come in the fixed order Storage Area, Level, Partition. */
  lemma OrderedRowsInOrder(r: Fields)
    ensures forall i, j :: 0 <= i < j < |OrderedRows(r, OrderedFields)| ==>
      FieldRank(OrderedRows(r, OrderedFields)[i].key) < FieldRank(OrderedRows(r, OrderedFields)[j].key)
  {
    OrderedRowsUnfold(r);
    var a, b, c := OrderedRow(r, "Storage Area"), OrderedRow(r, "Level"), OrderedRow(r, "Partition");
    var rows := a + b + c;
    assert forall k :: 0 <= k < |rows| ==> FieldRank(rows[k].key) == (if k < |a| then 0 else if k < |a| + |b| then 1 else 2)
      by {
      forall k | 0 <= k < |rows| ensures FieldRank(rows[k].key) == (if k < |a| then 0 else if k < |a| + |b| then 1 else 2) {
        if k < |a| { assert rows[k] == a[k]; }
        else if k < |a| + |b| { assert rows[k] == b[k - |a|]; }
        else { assert rows[k] == c[k - |a| - |b|]; }
      }
    }
  }

  /** The ordered rows, one field at a time. */
  lemma OrderedRowsUnfold(r: Fields)
    ensures OrderedRows(r, OrderedFields) == OrderedRow(r, "Storage Area") + OrderedRow(r, "Level") + OrderedRow(r, "Partition")
  {
    var s1: seq<string> := ["Storage Area"];
    var s2: seq<string> := ["Storage Area", "Level"];
    assert s1[..0] == [];
    assert OrderedRows(r, s1) == OrderedRow(r, "Storage Area");
    assert s2[..1] == s1;
    assert OrderedRows(r, s2) == OrderedRow(r, "Storage Area") + OrderedRow(r, "Level");
    assert OrderedFields[..2] == s2;
  }

  /** The position of an ordered field in `orderedFields` (3 for any other key). */
  function FieldRank(key: string): nat {
    if key == "Storage Area" then 0 else if key == "Level" then 1 else if key == "Partition" then 2 else 3
  }

  /** A generic row is exactly a pair of the record with a listed key and a non-empty value. */
  lemma {:induction false} GenericRowsSpec(r: Fields, d: DetailRow)
    ensures d in GenericRows(r) <==> (d.key, d.value) in r && d.value != "" && IsGenericKey(d.key) && !d.storageBadge
    decreases |r|
  {
    if r != [] {
      var init := r[..|r| - 1];
      GenericRowsSpec(init, d);
      assert r == init + [r[|r| - 1]];
      assert (d.key, d.value) in r <==> (d.key, d.value) in init || (d.key, d.value) == r[|r| - 1];
    }
  }

  /** Every key of the generic part is a key of the record. */
  lemma {:induction false} GenericLabelsAreKeys(r: Fields, k: nat)
    requires k < |GenericRows(r)|
    ensures exists i :: 0 <= i < |r| && r[i].0 == GenericRows(r)[k].key
  {
    var d := GenericRows(r)[k];
    GenericRowsSpec(r, d);
    var i :| 0 <= i < |r| && r[i] == (d.key, d.value);
  }

  /** No key appears twice among the detail rows of a record with distinct keys. */
  lemma {:induction false} DetailLabelsDistinct(r: Fields)
    requires DistinctKeys(r)
    ensures forall i, j :: 0 <= i < j < |DetailRows(r)| ==> DetailRows(r)[i].key != DetailRows(r)[j].key
  {
    OrderedRowsMembers(r);
    OrderedRowsInOrder(r);
    GenericLabelsDistinct(r);
    var ordered, generic := OrderedRows(r, OrderedFields), GenericRows(r);
    var rows := DetailRows(r);
    forall i, j | 0 <= i < j < |rows| ensures rows[i].key != rows[j].key {
      assert rows == ordered + generic;
      if j < |ordered| {
        assert rows[i] == ordered[i] && rows[j] == ordered[j];
        assert FieldRank(ordered[i].key) < FieldRank(ordered[j].key);
      } else if i >= |ordered| {
        assert rows[i] == generic[i - |ordered|] && rows[j] == generic[j - |ordered|];
        assert generic[i - |ordered|].key != generic[j - |ordered|].key;
      } else {
        assert rows[i] == ordered[i];
        assert rows[i] in ordered;
        assert rows[i].key in OrderedFields;
        assert rows[j] == generic[j - |ordered|];
        assert rows[j] in generic;
        GenericRowsSpec(r, rows[j]);
        assert rows[j].key !in OrderedFields;
      }
    }
  }

  /** The generic labels of a record with distinct keys are distinct. */
  lemma {:induction false} GenericLabelsDistinct(r: Fields)
    requires DistinctKeys(r)
    ensures forall i, j :: 0 <= i < j < |GenericRows(r)| ==> GenericRows(r)[i].key != GenericRows(r)[j].key
    decreases |r|
  {
    if r != [] {
      var init := r[..|r| - 1];
      var last := r[|r| - 1];
      assert DistinctKeys(init);
      GenericLabelsDistinct(init);
      var before := GenericRows(init);
      var rows := GenericRows(r);
      assert rows == before + GenericRow(last);
      forall i, j | 0 <= i < j < |rows| ensures rows[i].key != rows[j].key {
        if j < |before| {
          assert rows[i] == before[i] && rows[j] == before[j];
          assert before[i].key != before[j].key;
        } else {
          assert rows[i] == before[i];
          GenericLabelsAreKeys(init, i);
          var p :| 0 <= p < |init| && init[p].0 == before[i].key;
          assert init[p] == r[p];
          assert r[p].0 != r[|r| - 1].0;
          assert rows[j].key == last.0;
        }
      }
    }
  }

  datatype StatusBadge = PulledOutBadge | InFilingBadge

  datatype NoteControl = AddNote | EditNote | DeleteNote

  /** A `.record-card` without its markup. `target` is the `data-name` the buttons carry,
      which is the string "undefined" when the record has no `Name`. */
  datatype Card = Card(
    title: string,
    position: Option<string>,
    pulledOutStyle: bool,
    badge: StatusBadge,
    details: seq<DetailRow>,
    note: Option<string>,
    noteControls: seq<NoteControl>,
    pullOutEnabled: bool,
    returnEnabled: bool,
    target: string)

  /** The card `showResults` draws for one record. The single status test decides the
      pulled-out style, the badge and both buttons, so exactly one of Pull Out and
      Return is enabled; a truthy `Notes` gives the note with Edit and Delete, anything
      else only Add. */
  function CardOf(r: Fields): (c: Card)
    ensures c.pullOutEnabled != c.returnEnabled
    ensures c.returnEnabled <==> Lookup(r, "Status") == Some("Pulled Out")
    ensures c.pulledOutStyle == c.returnEnabled
    ensures c.badge == PulledOutBadge <==> c.returnEnabled
    ensures c.note.Some? <==> Truthy(r, "Notes")
    ensures c.noteControls == if c.note.Some? then [EditNote, DeleteNote] else [AddNote]
    ensures c.title != ""
    ensures Truthy(r, "Name") ==> c.title == Lookup(r, "Name").value
    ensures !Truthy(r, "Name") ==> c.title == "Unnamed Record"
    ensures c.position.Some? <==> Truthy(r, "Position")
    ensures c.position.Some? ==> c.position.value == Lookup(r, "Position").value
    ensures c.note.Some? ==> c.note.value == Lookup(r, "Notes").value
    ensures Lookup(r, "Name").Some? ==> c.target == Lookup(r, "Name").value
    ensures c.details == DetailRows(r)
  {
    var pulledOut := IsPulledOut(r);
    Card(
      title := if Truthy(r, "Name") then Lookup(r, "Name").value else "Unnamed Record",
      position := if Truthy(r, "Position") then Some(Lookup(r, "Position").value) else None,
      pulledOutStyle := pulledOut,
      badge := if pulledOut then PulledOutBadge else InFilingBadge,
      details := DetailRows(r),
      note := if Truthy(r, "Notes") then Some(Lookup(r, "Notes").value) else None,
      noteControls := if Truthy(r, "Notes") then [EditNote, DeleteNote] else [AddNote],
      pullOutEnabled := !pulledOut,
      returnEnabled := pulledOut,
      target := Lookup(r, "Name").GetOr("undefined"))
  }

  /** The body of the `forEach` over the results: one card per record. */
  method BuildCard(record: Fields) returns (c: Card)
    ensures c == CardOf(record)
  {
    var pulledOut := Lookup(record, "Status") == Some("Pulled Out");
    var name := Lookup(record, "Name");
    var title := if name.Some? && name.value != "" then name.value else "Unnamed Record";
    var position := Lookup(record, "Position");
    var badge := None;
    if position.Some? && position.value != "" {
      badge := Some(position.value);
    }
    var details := BuildDetailRows(record);
    var notes := Lookup(record, "Notes");
    var note: Option<string> := None;
    var controls: seq<NoteControl>;
    if notes.Some? && notes.value != "" {
      note := Some(notes.value);
      controls := [EditNote, DeleteNote];
    } else {
      controls := [AddNote];
    }
    c := Card(title, badge, pulledOut, if pulledOut then PulledOutBadge else InFilingBadge,
              details, note, controls, !pulledOut, pulledOut, name.GetOr("undefined"));
  }

  /** What the results container holds. */
  datatype Block =
    | SuccessNotice(message: string)
    | ErrorNotice(message: string)
    | NoResults
    | Spinner
    | CardBlock(card: Card)

  /** One card block per record, in order. */
  function CardBlocks(results: seq<Fields>): seq<Block> {
    seq(|results|, i requires 0 <= i < |results| => CardBlock(CardOf(results[i])))
  }

  /** The `forEach` of `showResults`: one card appended per record. */
  method BuildCardBlocks(results: seq<Fields>) returns (blocks: seq<Block>)
    ensures blocks == CardBlocks(results)
  {
    blocks := [];
    for i := 0 to |results|
      invariant |blocks| == i
      invariant forall k :: 0 <= k < i ==> blocks[k] == CardBlock(CardOf(results[k]))
    {
      var card := BuildCard(results[i]);
      blocks := blocks + [CardBlock(card)];
    }
  }

  /** The container after `showResults(response)`: the error notice alone; nothing when
      the reply has no `results` (reading its length throws after the container was
      emptied); the placeholder for no records; otherwise the cards. */
  function RenderedBlocks(response: Response): seq<Block> {
    if response.error != "" then [ErrorNotice(response.error)]
    else match response.results
      case None => []
      case Some(rs) => if rs == [] then [NoResults] else CardBlocks(rs)
  }

  /** The cards among some blocks, in order. */
  function CardsIn(blocks: seq<Block>): seq<Card>
    decreases |blocks|
  {
    if blocks == [] then []
    else (if blocks[0].CardBlock? then [blocks[0].card] else []) + CardsIn(blocks[1..])
  }

  /** The cards of a rendered reply are those of its records, one each, in order; an error
      reply or a reply without records shows no card. */
  lemma RenderedCards(response: Response)
    ensures var cards := CardsIn(RenderedBlocks(response));
      if response.error == "" && response.results.Some? then
        |cards| == |response.results.value|
        && forall i :: 0 <= i < |cards| ==> cards[i] == CardOf(response.results.value[i])
      else cards == []
  {
    if response.error == "" && response.results.Some? && response.results.value != [] {
      CardsInCardBlocks(response.results.value);
    }
  }

  lemma {:induction false} CardsInCardBlocks(results: seq<Fields>)
    ensures var cards := CardsIn(CardBlocks(results));
      |cards| == |results| && forall i :: 0 <= i < |cards| ==> cards[i] == CardOf(results[i])
    decreases |results|
  {
    if results != [] {
      var bs := CardBlocks(results);
      assert bs[0] == CardBlock(CardOf(results[0]));
      assert bs[1..] == CardBlocks(results[1..]) by {
        var tail := CardBlocks(results[1..]);
        assert |bs[1..]| == |tail|;
        forall i | 0 <= i < |tail| ensures bs[1..][i] == tail[i] {
          assert results[1..][i] == results[i + 1];
        }
      }
      CardsInCardBlocks(results[1..]);
      var cards := CardsIn(bs);
      assert cards == [CardOf(results[0])] + CardsIn(CardBlocks(results[1..]));
      forall i | 0 <= i < |cards| ensures cards[i] == CardOf(results[i]) {
        if i > 0 {
          assert results[1..][i - 1] == results[i];
        }
      }
    }
  }

  /** The record as the endpoint returns it after a note was set to `value`: the value
      replaces the key's value where the key is present, or the pair is added. */
  function WithField(r: Fields, key: string, value: string): Fields {
    if exists i :: 0 <= i < |r| && r[i].0 == key then Replaced(r, key, value) else r + [(key, value)]
  }

  /** Every pair with this key gets the new value. */
  function Replaced(r: Fields, key: string, value: string): (r': Fields)
    ensures |r'| == |r|
    ensures forall i :: 0 <= i < |r| ==> r'[i].0 == r[i].0
  {
    if r == [] then [] else [(r[0].0, if r[0].0 == key then value else r[0].1)] + Replaced(r[1..], key, value)
  }

  /** The record without this key. */
  function WithoutField(r: Fields, key: string): Fields {
    if r == [] then [] else (if r[0].0 == key then [] else [r[0]]) + WithoutField(r[1..], key)
  }

  lemma {:induction false} ReplacedLookup(r: Fields, key: string, value: string, other: string)
    ensures Lookup(Replaced(r, key, value), other) == if other == key && Lookup(r, key).Some? then Some(value) else Lookup(r, other)
  {
    if r != [] {
      ReplacedLookup(r[1..], key, value, other);
    }
  }

  lemma {:induction false} WithoutLookup(r: Fields, key: string, other: string)
    ensures Lookup(WithoutField(r, key), other) == if other == key then None else Lookup(r, other)
  {
    if r != [] {
      WithoutLookup(r[1..], key, other);
      if r[0].0 != key {
        var w := [r[0]] + WithoutField(r[1..], key);
        assert w[0] == r[0] && w[1..] == WithoutField(r[1..], key);
      } else {
        assert WithoutField(r, key) == WithoutField(r[1..], key);
      }
    }
  }

  lemma {:induction false} AppendLookup(r: Fields, key: string, value: string, other: string)
    requires Lookup(r, key).None?
    ensures Lookup(r + [(key, value)], other) == if other == key then Some(value) else Lookup(r, other)
  {
    if r != [] {
      assert (r + [(key, value)])[1..] == r[1..] + [(key, value)];
      AppendLookup(r[1..], key, value, other);
    }
  }

  /** Generic rows read only the pairs whose keys are listed, so changing or dropping a
      reserved key leaves them alone. */
  lemma {:induction false} GenericRowsIgnoreReserved(r: Fields, key: string, value: string)
    requires key in ReservedFields
    ensures GenericRows(Replaced(r, key, value)) == GenericRows(r)
    ensures GenericRows(r + [(key, value)]) == GenericRows(r)
    ensures GenericRows(WithoutField(r, key)) == GenericRows(r)
  {
    GenericRowsReplaced(r, key, value);
    assert (r + [(key, value)])[..|r|] == r;
    WithoutGeneric(r, key);
  }

  lemma {:induction false} GenericRowsReplaced(r: Fields, key: string, value: string)
    requires key in ReservedFields
    ensures GenericRows(Replaced(r, key, value)) == GenericRows(r)
    decreases |r|
  {
    if r != [] {
      var r' := Replaced(r, key, value);
      ReplacedInit(r, key, value);
      GenericRowsReplaced(r[..|r| - 1], key, value);
      assert GenericRow(r'[|r'| - 1]) == GenericRow(r[|r| - 1]);
    }
  }

  /** Replacing commutes with dropping the last pair. */
  lemma {:induction false} ReplacedInit(r: Fields, key: string, value: string)
    requires r != []
    ensures Replaced(r, key, value)[..|r| - 1] == Replaced(r[..|r| - 1], key, value)
    ensures Replaced(r, key, value)[|r| - 1] == (r[|r| - 1].0, if r[|r| - 1].0 == key then value else r[|r| - 1].1)
  {
    if |r| > 1 {
      var t, init := r[1..], r[..|r| - 1];
      ReplacedInit(t, key, value);
      assert init[1..] == t[..|t| - 1];
      var h := [(r[0].0, if r[0].0 == key then value else r[0].1)];
      assert Replaced(init, key, value) == h + Replaced(t[..|t| - 1], key, value);
      assert Replaced(r, key, value) == h + Replaced(t, key, value);
    }
  }

  /** Generic rows of a concatenation. */
  lemma {:induction false} GenericRowsAppend(a: Fields, b: Fields)
    ensures GenericRows(a + b) == GenericRows(a) + GenericRows(b)
    decreases |b|
  {
    if b == [] {
      assert a + b == a;
    } else {
      assert (a + b)[..|a + b| - 1] == a + b[..|b| - 1];
      GenericRowsAppend(a, b[..|b| - 1]);
    }
  }

  lemma {:induction false} WithoutGeneric(r: Fields, key: string)
    requires key in ReservedFields
    ensures GenericRows(WithoutField(r, key)) == GenericRows(r)
    decreases |r|
  {
    if r != [] {
      WithoutGeneric(r[1..], key);
      assert r == [r[0]] + r[1..];
      GenericRowsAppend([r[0]], r[1..]);
      GenericRowsAppend(if r[0].0 == key then [] else [r[0]], WithoutField(r[1..], key));
      assert GenericRows([r[0]]) == GenericRow(r[0]);
      if r[0].0 == key {
        assert [] + WithoutField(r[1..], key) == WithoutField(r[1..], key);
      }
    }
  }

  /** The ordered rows read only the ordered fields' values. */
  lemma {:induction false} OrderedRowsFromLookups(a: Fields, b: Fields, fields: seq<string>)
    requires forall f :: f in fields ==> Lookup(a, f) == Lookup(b, f)
    ensures OrderedRows(a, fields) == OrderedRows(b, fields)
    decreases |fields|
  {
    if fields != [] {
      OrderedRowsFromLookups(a, b, fields[..|fields| - 1]);
    }
  }

  /** Clearing a note is, for the card, the same as never having had one: a record whose
      `Notes` is the empty string renders exactly like the record without `Notes`. */
  lemma ClearedNoteRendersAsNone(r: Fields)
    ensures CardOf(WithField(r, "Notes", "")) == CardOf(WithoutField(r, "Notes"))
  {
    var cleared, dropped := WithField(r, "Notes", ""), WithoutField(r, "Notes");
    assert "Notes" in ReservedFields;
    GenericRowsIgnoreReserved(r, "Notes", "");
    forall k | k != "Notes" ensures Lookup(cleared, k) == Lookup(dropped, k) {
      ClearedLookup(r, k);
    }
    ClearedLookup(r, "Notes");
    SameCard(cleared, dropped);
  }

  /** Lookups in the record with the note cleared and in the record without it. */
  lemma ClearedLookup(r: Fields, k: string)
    ensures Lookup(WithField(r, "Notes", ""), k) == if k == "Notes" then Some("") else Lookup(r, k)
    ensures Lookup(WithoutField(r, "Notes"), k) == if k == "Notes" then None else Lookup(r, k)
  {
    LookupSpec(r, "Notes");
    WithoutLookup(r, "Notes", k);
    if Lookup(r, "Notes").Some? {
      ReplacedLookup(r, "Notes", "", k);
    } else {
      AppendLookup(r, "Notes", "", k);
    }
  }

  /** Two records that agree on every key but `Notes`, have the same generic rows and no
      truthy note draw the same card. */
  lemma SameCard(a: Fields, b: Fields)
    requires forall k :: k != "Notes" ==> Lookup(a, k) == Lookup(b, k)
    requires GenericRows(a) == GenericRows(b)
    requires !Truthy(a, "Notes") && !Truthy(b, "Notes")
    ensures CardOf(a) == CardOf(b)
  {
    OrderedRowsFromLookups(a, b, OrderedFields);
    CardFromParts(a, b);
  }

  /** A card is decided by the name, the status, the position, whether the note is
      truthy (and its value if so) and the detail rows. */
  lemma CardFromParts(a: Fields, b: Fields)
    requires Lookup(a, "Name") == Lookup(b, "Name") && Lookup(a, "Status") == Lookup(b, "Status")
    requires Lookup(a, "Position") == Lookup(b, "Position")
    requires !Truthy(a, "Notes") && !Truthy(b, "Notes")
    requires DetailRows(a) == DetailRows(b)
    ensures CardOf(a) == CardOf(b)
  {
  }

  /** Setting a note twice keeps only the second value. */
  lemma WithFieldTwice(r: Fields, key: string, first: string, second: string)
    ensures WithField(WithField(r, key, first), key, second) == WithField(r, key, second)
  {
    if exists i :: 0 <= i < |r| && r[i].0 == key {
      var i :| 0 <= i < |r| && r[i].0 == key;
      WithFieldTwicePresent(r, key, first, second, i);
    } else {
      WithFieldTwiceAbsent(r, key, first, second);
    }
  }

  /** Setting a present key twice replaces it with the second value. */
  lemma WithFieldTwicePresent(r: Fields, key: string, first: string, second: string, i: int)
    requires 0 <= i < |r| && r[i].0 == key
    ensures WithField(WithField(r, key, first), key, second) == Replaced(r, key, second)
  {
    var once := Replaced(r, key, first);
    assert WithField(r, key, first) == once;
    assert once[i].0 == key;
    ReplacedTwice(r, key, first, second);
  }

  /** Setting an absent key twice appends it once, with the second value. */
  lemma WithFieldTwiceAbsent(r: Fields, key: string, first: string, second: string)
    requires forall i :: 0 <= i < |r| ==> r[i].0 != key
    ensures WithField(WithField(r, key, first), key, second) == r + [(key, second)]
  {
    var once := r + [(key, first)];
    assert WithField(r, key, first) == once;
    assert once[|r|].0 == key;
    ReplacedAbsent(r, key, second);
    ReplacedAppend(r, [(key, first)], key, second);
  }

  lemma {:induction false} ReplacedTwice(r: Fields, key: string, first: string, second: string)
    ensures Replaced(Replaced(r, key, first), key, second) == Replaced(r, key, second)
  {
    if r != [] {
      ReplacedTwice(r[1..], key, first, second);
    }
  }

  lemma {:induction false} ReplacedAbsent(r: Fields, key: string, value: string)
    requires forall i :: 0 <= i < |r| ==> r[i].0 != key
    ensures Replaced(r, key, value) == r
  {
    if r != [] {
      ReplacedAbsent(r[1..], key, value);
    }
  }

  lemma {:induction false} ReplacedAppend(a: Fields, b: Fields, key: string, value: string)
    ensures Replaced(a + b, key, value) == Replaced(a, key, value) + Replaced(b, key, value)
  {
    if a == [] {
      assert a + b == b;
    } else {
      assert (a + b)[1..] == a[1..] + b;
      ReplacedAppend(a[1..], b, key, value);
    }
  }

  /** Saving a note and then deleting it leaves the card as if no note had ever been set. */
  lemma NoteRoundTrip(r: Fields, text: string)
    ensures CardOf(WithField(WithField(r, "Notes", text), "Notes", "")) == CardOf(WithoutField(r, "Notes"))
  {
    WithFieldTwice(r, "Notes", text, "");
    ClearedNoteRendersAsNone(r);
  }

  /** The record of the example: Jane Doe, in filing, stored in A1. */
  const JaneDoe: Fields := [("Name", "Jane Doe"), ("Status", "In Filing"), ("Storage Area", "A1")]

  lemma JaneDoeRows()
    ensures DetailRows(JaneDoe) == [DetailRow("Storage Area", "A1", true)]
  {
    var r := JaneDoe;
    OrderedRowsUnfold(r);
    assert Lookup(r, "Storage Area") == Some("A1");
    assert Lookup(r, "Level") == None && Lookup(r, "Partition") == None;
    assert "Name" in ReservedFields && "Status" in ReservedFields && "Storage Area" in OrderedFields;
    var r1, r2 := r[..1], r[..2];
    assert r1[..0] == [] && r2[..1] == r1 && r[..2] == r2;
    assert GenericRows(r1) == GenericRow(r[0]) == [];
    assert GenericRows(r2) == GenericRows(r1) + GenericRow(r[1]) == [];
    assert GenericRows(r) == GenericRows(r2) + GenericRow(r[2]) == [];
  }

  /** A search for "Jane" answered with one in-filing record stored in A1: one card titled
      "Jane Doe" with the storage badge, Pull Out enabled, Return disabled, and Add Note. */
  lemma JaneDoeScenario()
    ensures RenderedBlocks(Response("", "", Some([JaneDoe]), None))
      == [CardBlock(Card("Jane Doe", None, false, InFilingBadge, [DetailRow("Storage Area", "A1", true)],
                         None, [AddNote], true, false, "Jane Doe"))]
  {
    var r := JaneDoe;
    JaneDoeRows();
    assert Lookup(r, "Name") == Some("Jane Doe");
    assert Lookup(r, "Status") == Some("In Filing");
    assert Lookup(r, "Position") == None;
    assert Lookup(r, "Notes") == None;
  }

  /** `showResults` applied to an array instead of a reply object, as `performSearch` and
      `callApi` do with `[{ error: message }]`: an array has no `error`, `sheetName` or
      `results` property, so it reads as a reply with none of them. */
  function ArrayReadAsReply(items: seq<Fields>): Response {
    Response("", "", None, None)
  }

  /** As written, the wrapped message never reaches the page: the container is emptied
      (and reading `results.length` then throws), where an error reply shows its notice. */
  lemma WrappedErrorIsLost(message: string)
    requires message != ""
    ensures RenderedBlocks(ArrayReadAsReply([[("error", message)]])) == []
    ensures RenderedBlocks(Response(message, "", None, None)) == [ErrorNotice(message)]
  {
  }

  /** The results area: `#resultsContainer`, the `#resultsCount` badge (shown or not, and
      its number) and the `#sheetInfo` line. */
  class ResultsPanel {
    var container: seq<Block>
    var countShown: bool
    var count: nat
    var sheetInfo: string

    /** An empty results area. */
    constructor ()
      ensures container == [] && !countShown && count == 0 && sheetInfo == ""
    {
      container, countShown, count, sheetInfo := [], false, 0, "";
    }

    /** `showResults(response)`. An error reply shows only its notice and clears the count
        and the sheet line. Otherwise a truthy `sheetName` sets the sheet line; no records
        hide the count; records set the count to their number and show it. A reply without
        `results` stops after the container was emptied, so the count stays as it was. */
    method ShowResults(response: Response)
      modifies this
      ensures container == RenderedBlocks(response)
      ensures response.error != "" ==> !countShown && sheetInfo == "" && count == old(count)
      ensures response.error == "" ==>
        sheetInfo == if response.sheetName != "" then "Sheet: " + response.sheetName else old(sheetInfo)
      ensures response.error == "" && response.results.None? ==> countShown == old(countShown) && count == old(count)
      ensures response.error == "" && response.results == Some([]) ==> !countShown && count == old(count)
      ensures response.error == "" && response.results.Some? && response.results.value != [] ==>
        countShown && count == |response.results.value|
    {
      container := [];
      if response.error != "" {
        container := [ErrorNotice(response.error)];
        countShown := false;
        sheetInfo := "";
        return;
      }
      if response.sheetName != "" {
        sheetInfo := "Sheet: " + response.sheetName;
      }
      if response.results.None? {
        return;
      }
      var results := response.results.value;
      if |results| == 0 {
        container := [NoResults];
        countShown := false;
        return;
      }
      count := |results|;
      countShown := true;
      container := BuildCardBlocks(results);
    }

    /** `showLoading()`: the spinner alone, the count hidden, the sheet line cleared. */
    method ShowLoading()
      modifies this`container, this`countShown, this`sheetInfo
      ensures container == [Spinner] && !countShown && sheetInfo == ""
    {
      container := [Spinner];
      countShown := false;
      sheetInfo := "";
    }

    /** `showSuccessMessage(message)`: the notice goes in front of whatever the container
        holds. Its fading out five seconds later is not modelled. */
    method ShowSuccessMessage(message: string)
      modifies this`container
      ensures container == [SuccessNotice(message)] + old(container)
    {
      container := [SuccessNotice(message)] + container;
    }

    /** `showResults([{ error: message }])` as written: the container is emptied and nothing
        else changes. */
    method ShowWrappedError(message: string)
      modifies this
      ensures container == [] && countShown == old(countShown) && count == old(count) && sheetInfo == old(sheetInfo)
    {
      ShowResults(ArrayReadAsReply([[("error", message)]]));
    }

    /** `showResults({ error: message })`, the call evidently intended: the error notice
        alone, the count hidden and the sheet line cleared. */
    method ShowError(message: string)
      requires message != ""
      modifies this
      ensures container == [ErrorNotice(message)] && !countShown && sheetInfo == "" && count == old(count)
    {
      ShowResults(Response(message, "", None, None));
    }
  }
}
