/**
 Turning the parsed sheet into candidates. The first row holds the headers,
 lower-cased and trimmed; every later row becomes one `Candidate`. Each
 header is tested against substring patterns in a fixed order (`name`;
 `phone`, `mobile` or `contact`; `status`; `date`; `position` or `role`) and
 the first pattern that matches decides the field the cell goes to. Phone
 cells keep only their digits, a header matching no pattern keeps its cell
 under its own name, a missing cell reads as `""`, and a later header of the
 same kind overwrites an earlier one.

 `RowToCandidate` is the header loop as written; `ExpectedCandidate` is the
 same record described column by column (the value of the last matching
 column), and the loop is proved to build it.
 */
module Roster {
  import opened Types
  import opened JsText
  import Phone
  import Csv

  datatype Category = NameField | PhoneField | StatusField | DateField | PositionField | OtherField

  /** The first pattern the header contains, in priority order. */
  function Classify(header: string): Category {
    if Contains(header, "name") then NameField
    else if Contains(header, "phone") || Contains(header, "mobile") || Contains(header, "contact") then PhoneField
    else if Contains(header, "status") then StatusField
    else if Contains(header, "date") then DateField
    else if Contains(header, "position") || Contains(header, "role") then PositionField
    else OtherField
  }

  /** Assigning a string to `candidate["__proto__"]` leaves the object as it was. */
  const ProtoKey := "__proto__"

  /** `headerRow.map(h => h.toLowerCase().trim())`. */
  function HeaderKeys(headerRow: seq<string>): seq<string> {
    seq(|headerRow|, i requires 0 <= i < |headerRow| => Trim(ToLower(headerRow[i])))
  }

  /** `row[index]?.trim() || ''`. */
  function Cell(row: seq<string>, index: nat): string {
    if index < |row| then Trim(row[index]) else ""
  }

  /** The value a recognised field takes from its cell. */
  function FieldValue(cat: Category, cell: string): string {
    if cat == PhoneField then Phone.NormalizePhone(cell) else cell
  }

  /** The last of the first `n` headers that falls in category `cat`. */
  function LastMatch(headers: seq<string>, cat: Category, n: nat): (r: Option<nat>)
    requires n <= |headers|
    ensures r.Some? ==> r.value < n && Classify(headers[r.value]) == cat
    ensures r.Some? ==> forall j :: r.value < j < n ==> Classify(headers[j]) != cat
    ensures r.None? <==> forall j :: 0 <= j < n ==> Classify(headers[j]) != cat
  {
    if n == 0 then None
    else if Classify(headers[n - 1]) == cat then Some(n - 1)
    else LastMatch(headers, cat, n - 1)
  }

  /** The last of the first `n` headers equal to `key`. */
  function LastIndexOf(headers: seq<string>, key: string, n: nat): (r: Option<nat>)
    requires n <= |headers|
    ensures r.Some? ==> r.value < n && headers[r.value] == key
    ensures r.Some? ==> forall j :: r.value < j < n ==> headers[j] != key
    ensures r.None? <==> key !in headers[..n]
  {
    if n == 0 then None
    else if headers[n - 1] == key then Some(n - 1)
    else (assert headers[..n] == headers[..n - 1] + [headers[n - 1]]; LastIndexOf(headers, key, n - 1))
  }

  /** A recognised field, read from the last column of its kind among the first `n`. */
  function ExpectedField(headers: seq<string>, row: seq<string>, cat: Category, n: nat): Option<string>
    requires n <= |headers|
  {
    match LastMatch(headers, cat, n)
    case None => None
    case Some(j) => Some(FieldValue(cat, Cell(row, j)))
  }

  /**
   The pass-through fields of the first `n` columns: each unrecognised header
   other than `__proto__` holds its cell, a later column overwriting an
   earlier one (`ExtraLastColumn` states the result column by column).
   */
  function ExpectedExtra(headers: seq<string>, row: seq<string>, n: nat): map<string, string>
    requires n <= |headers|
  {
    if n == 0 then map[]
    else
      var key := headers[n - 1];
      var before := ExpectedExtra(headers, row, n - 1);
      if Classify(key) == OtherField && key != ProtoKey then before[key := Cell(row, n - 1)] else before
  }

  /** A pass-through key is present iff some column carries it, and holds the cell of its last column. */
  lemma {:induction false} ExtraLastColumn(headers: seq<string>, row: seq<string>, n: nat, key: string)
    requires n <= |headers|
    ensures key in ExpectedExtra(headers, row, n) <==>
      LastIndexOf(headers, key, n).Some? && Classify(key) == OtherField && key != ProtoKey
    ensures key in ExpectedExtra(headers, row, n) ==>
      ExpectedExtra(headers, row, n)[key] == Cell(row, LastIndexOf(headers, key, n).value)
  {
    if n > 0 {
      ExtraLastColumn(headers, row, n - 1, key);
    }
  }

  /** The candidate the first `n` headers describe. */
  function ExpectedCandidate(headers: seq<string>, row: seq<string>, n: nat): Candidate
    requires n <= |headers|
  {
    Candidate(
      ExpectedField(headers, row, NameField, n),
      ExpectedField(headers, row, PhoneField, n),
      ExpectedField(headers, row, StatusField, n),
      ExpectedField(headers, row, DateField, n),
      ExpectedField(headers, row, PositionField, n),
      ExpectedExtra(headers, row, n))
  }

  /** The candidate after visiting the column `key` of kind `cat` whose cell is `value`. */
  function Visit(c: Candidate, cat: Category, key: string, value: string): Candidate {
    match cat
    case NameField => c.(name := Some(value))
    case PhoneField => c.(phone := Some(Phone.NormalizePhone(value)))
    case StatusField => c.(status := Some(value))
    case DateField => c.(interviewDate := Some(value))
    case PositionField => c.(position := Some(value))
    case OtherField => if key != ProtoKey then c.(extra := c.extra[key := value]) else c
  }

  /** One more column sets a recognised field iff the column is of its kind. */
  lemma ExpectedFieldStep(headers: seq<string>, row: seq<string>, cat: Category, n: nat)
    requires n < |headers|
    ensures ExpectedField(headers, row, cat, n + 1)
      == if Classify(headers[n]) == cat then Some(FieldValue(cat, Cell(row, n))) else ExpectedField(headers, row, cat, n)
  {
  }

  /** Visiting one more column takes the description of the first `n` columns to that of the first `n + 1`. */
  lemma ExpectedCandidateStep(headers: seq<string>, row: seq<string>, n: nat)
    requires n < |headers|
    ensures ExpectedCandidate(headers, row, n + 1)
      == Visit(ExpectedCandidate(headers, row, n), Classify(headers[n]), headers[n], Cell(row, n))
  {
    ExpectedFieldStep(headers, row, NameField, n);
    ExpectedFieldStep(headers, row, PhoneField, n);
    ExpectedFieldStep(headers, row, StatusField, n);
    ExpectedFieldStep(headers, row, DateField, n);
    ExpectedFieldStep(headers, row, PositionField, n);
  }

  /** Before any column is visited the candidate is the empty object. */
  lemma ExpectedCandidateStart(headers: seq<string>, row: seq<string>)
    ensures ExpectedCandidate(headers, row, 0) == EmptyCandidate
  {
  }

  /** One data row (the `headers.forEach` body): the candidate object built field by field. */
  method RowToCandidate(headers: seq<string>, row: seq<string>) returns (candidate: Candidate)
    ensures candidate == ExpectedCandidate(headers, row, |headers|)
  {
    candidate := EmptyCandidate;
    ExpectedCandidateStart(headers, row);
    for index := 0 to |headers|
      invariant candidate == ExpectedCandidate(headers, row, index)
    {
      var header := headers[index];
      var value := Cell(row, index);
      ExpectedCandidateStep(headers, row, index);
      ghost var visited := Visit(candidate, Classify(header), header, value);
      if Contains(header, "name") {
        candidate := candidate.(name := Some(value));
      } else if Contains(header, "phone") || Contains(header, "mobile") || Contains(header, "contact") {
        candidate := candidate.(phone := Some(Phone.NormalizePhone(value)));
      } else if Contains(header, "status") {
        candidate := candidate.(status := Some(value));
      } else if Contains(header, "date") {
        candidate := candidate.(interviewDate := Some(value));
      } else if Contains(header, "position") || Contains(header, "role") {
        candidate := candidate.(position := Some(value));
      } else if header != ProtoKey {
        candidate := candidate.(extra := candidate.extra[header := value]);
      }
      assert candidate == visited;
    }
  }

  /** The candidate a data row becomes under the given (already lower-cased and trimmed) headers. */
  function RowCandidate(headers: seq<string>, row: seq<string>): Candidate {
    ExpectedCandidate(headers, row, |headers|)
  }

  /**
   The table-to-roster step of `fetchSheetData`: no roster unless there is a
   data row, otherwise one candidate per data row, in row order.
   */
  method CandidatesFromRows(rows: seq<seq<string>>) returns (roster: seq<Candidate>)
    ensures |rows| < 2 ==> roster == []
    ensures |rows| >= 2 ==> |roster| == |rows| - 1
    ensures |rows| >= 2 ==> forall k :: 0 <= k < |roster| ==> roster[k] == RowCandidate(HeaderKeys(rows[0]), rows[k + 1])
  {
    if |rows| < 2 {
      return [];
    }
    var headers := HeaderKeys(rows[0]);
    var dataRows := rows[1..];
    roster := [];
    for k := 0 to |dataRows|
      invariant |roster| == k
      invariant forall m :: 0 <= m < k ==> roster[m] == RowCandidate(headers, rows[m + 1])
    {
      var candidate := RowToCandidate(headers, dataRows[k]);
      roster := roster + [candidate];
    }
  }

  /** A recognised field is the value of the last column of its kind; a phone keeps only digits. */
  lemma RecognisedFieldIsLastColumn(headers: seq<string>, row: seq<string>, cat: Category, j: nat)
    requires cat != OtherField && j < |headers| && Classify(headers[j]) == cat
    requires forall m :: j < m < |headers| ==> Classify(headers[m]) != cat
    ensures var c := RowCandidate(headers, row);
      var field := match cat
        case NameField => c.name
        case PhoneField => c.phone
        case StatusField => c.status
        case DateField => c.interviewDate
        case _ => c.position;
      field == Some(if cat == PhoneField then Phone.NormalizePhone(Cell(row, j)) else Cell(row, j))
  {
    assert LastMatch(headers, cat, |headers|) == Some(j);
  }

  /** Phones are stored as digits only; a row without a phone column has no phone at all. */
  lemma RowPhone(headers: seq<string>, row: seq<string>)
    ensures var c := RowCandidate(headers, row);
      && (c.phone.Some? ==> Phone.AllDigits(c.phone.value))
      && (c.phone.None? <==> forall j :: 0 <= j < |headers| ==> Classify(headers[j]) != PhoneField)
  {
  }

  /** A pass-through field holds the cell of the last column carrying that header. */
  lemma ExtraFieldIsLastColumn(headers: seq<string>, row: seq<string>, key: string)
    ensures var c := RowCandidate(headers, row);
      key in c.extra <==> (key in headers && Classify(key) == OtherField && key != ProtoKey)
    ensures var c := RowCandidate(headers, row);
      key in c.extra ==>
        exists j :: 0 <= j < |headers| && headers[j] == key && c.extra[key] == Cell(row, j) &&
          forall m :: j < m < |headers| ==> headers[m] != key
  {
    assert headers[..|headers|] == headers;
    ExtraLastColumn(headers, row, |headers|, key);
    var c := RowCandidate(headers, row);
    if key in c.extra {
      var j := LastIndexOf(headers, key, |headers|).value;
      assert c.extra[key] == Cell(row, j);
    }
  }

  /** The outcome of fetching the published sheet. */
  datatype FetchResponse = NetworkError | HttpResponse(ok: bool, body: string)

  /**
   `fetchSheetData` with the network replaced by its response: any failure
   gives the empty roster, otherwise the body is parsed and mapped.
   */
  method FetchSheetData(response: FetchResponse) returns (roster: seq<Candidate>)
    ensures !(response.HttpResponse? && response.ok) ==> roster == []
    ensures response.HttpResponse? && response.ok ==>
      var rows := Csv.Parse(response.body);
      && (|rows| < 2 ==> roster == [])
      && (|rows| >= 2 ==> |roster| == |rows| - 1)
      && (|rows| >= 2 ==> forall k :: 0 <= k < |roster| ==> roster[k] == RowCandidate(HeaderKeys(rows[0]), rows[k + 1]))
  {
    if response.NetworkError? || !response.ok {
      return [];
    }
    var rows := Csv.ParseCsv(response.body);
    roster := CandidatesFromRows(rows);
  }
}
