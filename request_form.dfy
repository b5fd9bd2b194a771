/** The request form: its initial state, the three edits of the header and
    parameter lists, and the request built on submit. */
module RequestForm {
  import opened Wrappers
  import opened Transaction
  import Seqs

  /** The header row shown when the initial request carries none. */
  const DefaultHeader := KV("Content-Type", "application/json")
  /** The row that "add" appends and that an empty parameter list starts with. */
  const EmptyRow := KV("", "")
  /** The body shown when the initial request has an empty one. */
  const DefaultBody := "{\n  \n}"

  /** What the form holds between edits (the selected tab is left out). */
  datatype FormState = FormState(
    httpMethod: string,
    url: string,
    headers: seq<KV>,
    params: seq<KV>,
    body: string)

  /** A row as an object: the form's lists hold references to these, and the
      field editor writes into them in place. */
  class Pair {
    var key: string
    var value: string

    constructor (key: string, value: string)
      ensures this.key == key && this.value == value
    {
      this.key := key;
      this.value := value;
    }

    function View(): KV
      reads this
    {
      KV(key, value)
    }
  }

  /** Which field of a row an edit writes. */
  datatype Field = Key | Value

  /** The values the rows of `list` hold in the current heap. */
  function Snapshot(list: seq<Pair>): (r: seq<KV>)
    reads list
    ensures |r| == |list|
    ensures forall i :: 0 <= i < |list| ==> r[i] == list[i].View()
    decreases |list|
  {
    if list == [] then [] else [list[0].View()] + Snapshot(list[1..])
  }

  /** No row object occurs twice in `list`. */
  predicate Distinct(list: seq<Pair>)
  {
    forall i, j :: 0 <= i < j < |list| ==> list[i] != list[j]
  }

  /** `kv` with `field` set to `v`. */
  function WithField(kv: KV, field: Field, v: string): KV
  {
    match field
    case Key => kv.(key := v)
    case Value => kv.(value := v)
  }

  /** The value of `field` in `kv`. */
  function FieldOf(kv: KV, field: Field): string
  {
    match field
    case Key => kv.key
    case Value => kv.value
  }

  /** The list of row values after writing `v` into `field` of row `i`. */
  function SetField(kvs: seq<KV>, i: nat, field: Field, v: string): (r: seq<KV>)
    requires i < |kvs|
    ensures |r| == |kvs|
    ensures FieldOf(r[i], field) == v
    ensures forall f :: f != field ==> FieldOf(r[i], f) == FieldOf(kvs[i], f)
    ensures forall j :: 0 <= j < |kvs| && j != i ==> r[j] == kvs[j]
  {
    kvs[i := WithField(kvs[i], field, v)]
  }

  /** Writing back the old value of the field restores the list. */
  lemma SetFieldUndo(kvs: seq<KV>, i: nat, field: Field, v: string)
    requires i < |kvs|
    ensures SetField(SetField(kvs, i, field, v), i, field, FieldOf(kvs[i], field)) == kvs
  {
  }

  /** The field editor: copies the list shallowly, writes `newValue` into
      `field` of the row object at `index`, and returns the copy. The copy
      holds the very same row objects, so the list passed in sees the write
      too, and so does every other position holding the same object. An
      index with no row makes the write fail (the source throws). */
  method ChangeField(list: seq<Pair>, index: int, field: Field, newValue: string)
    returns (r: Option<seq<Pair>>)
    modifies if 0 <= index < |list| then {list[index]} else {}
    ensures r.None? <==> !(0 <= index < |list|)
    ensures r.Some? ==> r.value == list
    ensures r.Some? ==> list[index].View() == WithField(old(list[index].View()), field, newValue)
    ensures r.Some? ==> forall j :: 0 <= j < |list| && list[j] != list[index] ==>
      list[j].View() == old(list[j].View())
    ensures r.Some? && Distinct(list) ==>
      Snapshot(list) == SetField(old(Snapshot(list)), index, field, newValue)
  {
    if !(0 <= index < |list|) {
      return None;
    }
    var copy := list;
    var row := copy[index];
    if field == Key {
      row.key := newValue;
    } else {
      row.value := newValue;
    }
    r := Some(copy);
  }

  /** The list with one empty row appended. */
  function AddRow(prev: seq<KV>): (r: seq<KV>)
    ensures |r| == |prev| + 1
    ensures r[..|prev|] == prev && r[|prev|] == EmptyRow
  {
    prev + [EmptyRow]
  }

  /** The list without the row at position `index`: every position other
      than `index` is kept, in order. */
  function RemoveAt<T>(prev: seq<T>, index: int): (r: seq<T>)
    ensures 0 <= index < |prev| ==> r == prev[..index] + prev[index + 1..]
    ensures !(0 <= index < |prev|) ==> r == prev
    decreases |prev|
  {
    if prev == [] then []
    else (if index == 0 then [] else [prev[0]]) + RemoveAt(prev[1..], index - 1)
  }

  /** Removing the row that was just added gives back the list. */
  lemma RemoveUndoesAdd(prev: seq<KV>)
    ensures RemoveAt(AddRow(prev), |prev|) == prev
  {
  }

  /** The initial form for `initial`, falling back to the defaults for an
      empty method, header list, parameter list or body. */
  function Initial(initial: ApiRequest, defaultMethod: string): (f: FormState)
    ensures f.url == initial.url
    ensures f.httpMethod != "" <==> initial.httpMethod != "" || defaultMethod != ""
    ensures initial.httpMethod != "" ==> f.httpMethod == initial.httpMethod
    ensures initial.httpMethod == "" ==> f.httpMethod == defaultMethod
    ensures |f.headers| > 0 && |f.params| > 0 && f.body != ""
    ensures initial.headers != [] ==> f.headers == initial.headers
    ensures initial.headers == [] ==> f.headers == [DefaultHeader]
    ensures initial.params != [] ==> f.params == initial.params
    ensures initial.params == [] ==> f.params == [EmptyRow]
    ensures initial.body != "" ==> f.body == initial.body
    ensures initial.body == "" ==> f.body == DefaultBody
  {
    FormState(
      if initial.httpMethod != "" then initial.httpMethod else defaultMethod,
      initial.url,
      if |initial.headers| > 0 then initial.headers else [DefaultHeader],
      if |initial.params| > 0 then initial.params else [EmptyRow],
      if initial.body != "" then initial.body else DefaultBody)
  }

  /** A row is submitted when its key is non-empty. */
  predicate HasKey(kv: KV)
  {
    kv.key != ""
  }

  /** The request built on submit: the form's method, URL and body unchanged,
      its rows with an empty key dropped, and the identifier and timestamp
      supplied by the caller. */
  function Submit(form: FormState, id: string, timestamp: int): (r: ApiRequest)
    ensures r.id == id && r.timestamp == timestamp
    ensures r.url == form.url && r.httpMethod == form.httpMethod && r.body == form.body
    ensures |r.headers| <= |form.headers| && |r.params| <= |form.params|
    ensures forall i :: 0 <= i < |r.headers| ==> r.headers[i].key != ""
    ensures forall i :: 0 <= i < |r.params| ==> r.params[i].key != ""
  {
    ApiRequest(
      id,
      form.url,
      form.httpMethod,
      Seqs.Filter(form.headers, HasKey),
      Seqs.Filter(form.params, HasKey),
      form.body,
      timestamp)
  }

  /** The submitted rows are a subsequence of the form's rows and hold every
      row with a non-empty key (whatever its value) exactly as often as the
      form does, and no other row. */
  lemma SubmitKeepsExactlyKeyedRows(form: FormState, id: string, timestamp: int, kv: KV)
    ensures Seqs.IsSubsequence(Submit(form, id, timestamp).headers, form.headers)
    ensures Seqs.IsSubsequence(Submit(form, id, timestamp).params, form.params)
    ensures multiset(Submit(form, id, timestamp).headers)[kv] ==
      if kv.key != "" then multiset(form.headers)[kv] else 0
    ensures multiset(Submit(form, id, timestamp).params)[kv] ==
      if kv.key != "" then multiset(form.params)[kv] else 0
  {
    Seqs.FilterIsSubsequence(form.headers, HasKey);
    Seqs.FilterIsSubsequence(form.params, HasKey);
    Seqs.FilterMultiplicity(form.headers, HasKey, kv);
    Seqs.FilterMultiplicity(form.params, HasKey, kv);
  }

  /** Appending an empty row does not change what is submitted. */
  lemma AddRowNotSubmitted(rows: seq<KV>)
    ensures Seqs.Filter(AddRow(rows), HasKey) == Seqs.Filter(rows, HasKey)
  {
    Seqs.FilterAppend(rows, [EmptyRow], HasKey);
    assert Seqs.Filter([EmptyRow], HasKey) == [];
  }

  /** Removing a row with an empty key does not change what is submitted. */
  lemma RemoveKeylessRowNotSubmitted(rows: seq<KV>, index: nat)
    requires index < |rows| && rows[index].key == ""
    ensures Seqs.Filter(RemoveAt(rows, index), HasKey) == Seqs.Filter(rows, HasKey)
  {
    var before, row, after := rows[..index], rows[index..index + 1], rows[index + 1..];
    assert rows == before + (row + after);
    Seqs.FilterAppend(before, row + after, HasKey);
    Seqs.FilterAppend(row, after, HasKey);
    Seqs.FilterAppend(before, after, HasKey);
    assert Seqs.Filter(row, HasKey) == [];
  }

  /** A request whose method and body are set and whose header and parameter
      lists are non-empty with every key set loads into the form and submits
      back to itself, given its own identifier and timestamp. */
  lemma ReloadThenSubmit(req: ApiRequest, defaultMethod: string)
    requires req.httpMethod != "" && req.body != ""
    requires req.headers != [] && req.params != []
    requires forall i :: 0 <= i < |req.headers| ==> req.headers[i].key != ""
    requires forall i :: 0 <= i < |req.params| ==> req.params[i].key != ""
    ensures Submit(Initial(req, defaultMethod), req.id, req.timestamp) == req
  {
    Seqs.FilterKeepsAll(req.headers, HasKey);
    Seqs.FilterKeepsAll(req.params, HasKey);
  }
}
