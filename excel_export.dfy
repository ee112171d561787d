/** The registration export behind the admin "Download XLS" button: the event
    name used for the file, one flat row per registration document, the file
    name, and the two early exits of the handler. The document store, the
    clock and the spreadsheet library are replaced by values passed in. */
module ExcelExport {
  import opened WhitespaceRuns

  datatype Option<T> = None | Some(value: T)

  /** JavaScript truthiness of an optional text value: a missing value and the
      empty string are falsy, every other string is truthy. */
  predicate Truthy(v: Option<string>)
    ensures !Truthy(v) <==> v == None || v == Some("")
  {
    v.Some? && v.value != ""
  }

  /** `v || ''`: the value when it is truthy, the empty string otherwise. */
  function OrEmpty(v: Option<string>): (s: string)
    ensures Truthy(v) ==> s == v.value
    ensures s == "" <==> !Truthy(v)
  {
    if v.Some? then v.value else ""
  }

  /** A stored server timestamp; its local rendering is left to a formatter
      passed in by the caller. */
  datatype Timestamp = Timestamp(seconds: int, nanoseconds: nat)

  /** The data of an event document (only the field the export reads). */
  datatype EventData = EventData(name: Option<string>)

  /** The data of one document of an event's `registeredUsers` collection. */
  datatype Registration = Registration(
    name: Option<string>,
    phoneNumber: Option<string>,
    flatNo: Option<string>,
    wing: Option<string>,
    builder: Option<string>,
    registeredAt: Option<Timestamp>)

  /** One spreadsheet row; the fields are the columns SrNo, Name, PhoneNumber,
      FlatNo, Wing, Builder and RegisteredAt, in that order. */
  datatype Row = Row(
    srNo: nat,
    name: string,
    phoneNumber: string,
    flatNo: string,
    wing: string,
    builder: string,
    registeredAt: string)

  const DefaultEventName: string := "Event"
  const SheetName: string := "Registered Users"
  const Extension: string := ".xlsx"

  /** The name used for the file: the stored event name, or "Event" when the
      event document does not exist or its name is falsy. */
  function EventName(event: Option<EventData>): (n: string)
    ensures n != ""
    ensures event.Some? && Truthy(event.value.name) ==> n == event.value.name.value
    ensures !(event.Some? && Truthy(event.value.name)) ==> n == DefaultEventName
  {
    match event
    case None => DefaultEventName
    case Some(data) => if Truthy(data.name) then data.name.value else DefaultEventName
  }

  /** The row built from the document at position `index` of the snapshot. */
  function BuildRow(d: Registration, index: nat, format: Timestamp -> string): (r: Row)
    ensures r.srNo == index + 1
    ensures Truthy(d.name) ==> r.name == d.name.value
    ensures Truthy(d.phoneNumber) ==> r.phoneNumber == d.phoneNumber.value
    ensures Truthy(d.flatNo) ==> r.flatNo == d.flatNo.value
    ensures Truthy(d.wing) ==> r.wing == d.wing.value
    ensures Truthy(d.builder) ==> r.builder == d.builder.value
    ensures (r.name == "" <==> !Truthy(d.name)) && (r.phoneNumber == "" <==> !Truthy(d.phoneNumber))
    ensures (r.flatNo == "" <==> !Truthy(d.flatNo)) && (r.wing == "" <==> !Truthy(d.wing))
    ensures r.builder == "" <==> !Truthy(d.builder)
    ensures d.registeredAt.None? ==> r.registeredAt == ""
    ensures d.registeredAt.Some? ==> r.registeredAt == format(d.registeredAt.value)
  {
    Row(index + 1,
        OrEmpty(d.name),
        OrEmpty(d.phoneNumber),
        OrEmpty(d.flatNo),
        OrEmpty(d.wing),
        OrEmpty(d.builder),
        match d.registeredAt
        case Some(t) => format(t)
        case None => "")
  }

  /** `snapshot.docs.map((docSnap, index) => ...)`: the rows of the sheet, one
      per document, in snapshot order. */
  function BuildRows(docs: seq<Registration>, format: Timestamp -> string): (rows: seq<Row>)
    ensures |rows| == |docs|
    ensures forall i :: 0 <= i < |docs| ==> rows[i] == BuildRow(docs[i], i, format)
  {
    seq(|docs|, i requires 0 <= i < |docs| => BuildRow(docs[i], i, format))
  }

  /** `${eventName.replace(/\s+/g, '_')}_${today}.xlsx`: the collapsed event
      name, a separator, the date stamp and the extension. */
  function FileName(eventName: string, today: string): (f: string)
    ensures |f| == |CollapseWhitespace(eventName)| + 1 + |today| + |Extension|
    ensures f[..|f| - (1 + |today| + |Extension|)] == CollapseWhitespace(eventName)
    ensures f[|f| - (1 + |today| + |Extension|)..] == [Separator] + today + Extension
    ensures forall i :: 0 <= i < |f| - (1 + |today| + |Extension|) ==> !IsWs(f[i])
    ensures WsFree(today) ==> WsFree(f)
  {
    CollapseWhitespace(eventName) + [Separator] + today + Extension
  }

  /** The document store the handler reads: event documents by id and each
      event's `registeredUsers` collection, in the order the store lists it.
      An id absent from `registeredUsers` has an empty collection. */
  datatype Store = Store(events: map<string, EventData>, registeredUsers: map<string, seq<Registration>>)

  /** `getDoc(doc(db, 'LeadCapture', eventId))` */
  function ReadEvent(store: Store, eventId: string): (r: Option<EventData>)
    ensures r.Some? <==> eventId in store.events
    ensures r.Some? ==> r.value == store.events[eventId]
  {
    if eventId in store.events then Some(store.events[eventId]) else None
  }

  /** `getDocs(collection(db, 'LeadCapture/<eventId>/registeredUsers'))` */
  function ReadRegistrations(store: Store, eventId: string): (r: seq<Registration>)
    ensures eventId in store.registeredUsers ==> r == store.registeredUsers[eventId]
    ensures eventId !in store.registeredUsers ==> r == []
  {
    if eventId in store.registeredUsers then store.registeredUsers[eventId] else []
  }

  /** What the handler does to the world outside the component, in order. */
  datatype Effect =
    | EventRead(eventId: string)
    | RegistrationsRead(eventId: string)
    | WorkbookWritten(fileName: string, sheetName: string, rows: seq<Row>)

  /** How a run ends, which decides the message the user is shown. */
  datatype Outcome = MissingEventId | NoRegisteredUsers | Exported(fileName: string)

  datatype Run = Run(effects: seq<Effect>, outcome: Outcome)

  /** One run of `fetchDataAndExport` for the component's `eventId`, against
      `store`, on the day `today`. */
  function Export(eventId: Option<string>, store: Store, today: string, format: Timestamp -> string): (r: Run)
    ensures r.outcome == MissingEventId <==> !Truthy(eventId)
    ensures !Truthy(eventId) ==> r.effects == []
    ensures Truthy(eventId) ==>
      (|r.effects| >= 2
       && r.effects[0] == EventRead(eventId.value)
       && r.effects[1] == RegistrationsRead(eventId.value))
    ensures r.outcome == NoRegisteredUsers <==>
      Truthy(eventId) && ReadRegistrations(store, eventId.value) == []
    ensures r.outcome.Exported? <==> exists k :: 0 <= k < |r.effects| && r.effects[k].WorkbookWritten?
    ensures forall k :: 0 <= k < |r.effects| && r.effects[k].WorkbookWritten? ==>
      k == |r.effects| - 1 && r.outcome == Exported(r.effects[k].fileName)
      && r.effects[k].sheetName == SheetName
      && |r.effects[k].rows| == |ReadRegistrations(store, eventId.value)| > 0
      && r.effects[k].rows == BuildRows(ReadRegistrations(store, eventId.value), format)
      && r.effects[k].fileName == FileName(EventName(ReadEvent(store, eventId.value)), today)
  {
    if !Truthy(eventId) then Run([], MissingEventId)
    else
      var id := eventId.value;
      var eventName := EventName(ReadEvent(store, id));
      var snapshot := ReadRegistrations(store, id);
      if snapshot == [] then Run([EventRead(id), RegistrationsRead(id)], NoRegisteredUsers)
      else
        var fileName := FileName(eventName, today);
        var written := WorkbookWritten(fileName, SheetName, BuildRows(snapshot, format));
        var r := Run([EventRead(id), RegistrationsRead(id), written], Exported(fileName));
        assert r.effects[2].WorkbookWritten?;
        r
  }

  /** The serial numbers appearing in `rows`. */
  function Serials(rows: seq<Row>): set<nat> {
    set r | r in rows :: r.srNo
  }

  /** The rows are the documents in snapshot order, numbered 1 to n without
      gaps or repeats. */
  lemma SerialNumbers(docs: seq<Registration>, format: Timestamp -> string)
    ensures var rows := BuildRows(docs, format);
      (forall i :: 0 <= i < |rows| ==> rows[i].srNo == i + 1)
      && (forall i, j :: 0 <= i < |rows| && 0 <= j < |rows| && rows[i].srNo == rows[j].srNo ==> i == j)
      && (forall k :: k in Serials(rows) <==> 1 <= k <= |docs|)
  {
    var rows := BuildRows(docs, format);
    forall k | 1 <= k <= |docs| ensures k in Serials(rows) {
      assert rows[k - 1] in rows;
    }
  }

  /** Each text column is the document's value when that is truthy and the
      empty string otherwise; a present value is copied unchanged. */
  lemma TextColumns(docs: seq<Registration>, format: Timestamp -> string, i: nat)
    requires i < |docs|
    ensures var row, d := BuildRows(docs, format)[i], docs[i];
      row.name == (if Truthy(d.name) then d.name.value else "")
      && row.phoneNumber == (if Truthy(d.phoneNumber) then d.phoneNumber.value else "")
      && row.flatNo == (if Truthy(d.flatNo) then d.flatNo.value else "")
      && row.wing == (if Truthy(d.wing) then d.wing.value else "")
      && row.builder == (if Truthy(d.builder) then d.builder.value else "")
  {
  }

  /** The RegisteredAt column is the formatted timestamp when the document has
      one, and is empty exactly when it has none, provided the formatter never
      renders a timestamp as the empty string. */
  lemma RegisteredAtColumn(docs: seq<Registration>, format: Timestamp -> string, i: nat)
    requires i < |docs|
    ensures var row, d := BuildRows(docs, format)[i], docs[i];
      (d.registeredAt.Some? ==> row.registeredAt == format(d.registeredAt.value))
      && ((forall t :: format(t) != "") ==> (row.registeredAt == "" <==> d.registeredAt.None?))
  {
  }

  /** The file name holds no whitespace from the event name, and collapsing
      the name first changes nothing. */
  lemma FileNameStable(eventName: string, today: string)
    ensures FileName(CollapseWhitespace(eventName), today) == FileName(eventName, today)
  {
    CollapseIdempotent(eventName);
  }

  /** The component: its `eventId` prop, its `loading` state, and the log of
      what its runs have done outside it. */
  class ExportToExcel {
    const eventId: Option<string>
    var loading: bool
    var effects: seq<Effect>

    constructor (eventId: Option<string>)
      ensures this.eventId == eventId && !loading && effects == []
    {
      this.eventId := eventId;
      loading := false;
      effects := [];
    }

    /** `fetchDataAndExport`: sets `loading`, returns early when there is no
        event id or no registration, otherwise writes the workbook; `loading`
        is cleared on every path. */
    method FetchDataAndExport(store: Store, today: string, format: Timestamp -> string)
      returns (outcome: Outcome)
      modifies this
      ensures !loading
      ensures effects == old(effects) + Export(eventId, store, today, format).effects
      ensures outcome == Export(eventId, store, today, format).outcome
    {
      loading := true;
      if !Truthy(eventId) {
        loading := false;
        return MissingEventId;
      }
      var id := eventId.value;
      effects := effects + [EventRead(id)];
      var eventName := EventName(ReadEvent(store, id));
      effects := effects + [RegistrationsRead(id)];
      var snapshot := ReadRegistrations(store, id);
      if snapshot == [] {
        loading := false;
        return NoRegisteredUsers;
      }
      var data := BuildRows(snapshot, format);
      var fileName := FileName(eventName, today);
      effects := effects + [WorkbookWritten(fileName, SheetName, data)];
      outcome := Exported(fileName);
      loading := false;
    }
  }
}
