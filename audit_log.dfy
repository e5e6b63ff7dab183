/**
 * The audit-log page (src/AuditLog.jsx): it reads the stored records from one
 * key of the browser's local storage, gives every record the fields the
 * table shows, and can clear the log. Local storage is a map from key to the
 * stored text, and the stored text is represented by what `JSON.parse` makes
 * of it: a value, or None when parsing throws.
 */
module AuditLog {
  import opened Common

  const LogKey := "pdftron-auditlog"

  /** A parsed JSON value. Numbers are integers: only zero versus non-zero matters here. */
  datatype Json =
    | JNull
    | JBool(b: bool)
    | JNum(n: int)
    | JStr(s: string)
    | JArr(items: seq<Json>)
    | JObj(fields: map<string, Json>)

  /** A record as the page holds it: an object's properties. */
  type Record = map<string, Json>

  /**
   * JavaScript truthiness: what `x || fallback` keeps. The falsy JSON values
   * are exactly `null`, `false`, `0` and the empty string.
   */
  function Truthy(v: Json): (t: bool)
    ensures !t <==> v == JNull || v == JBool(false) || v == JNum(0) || v == JStr("")
  {
    match v
    case JNull => false
    case JBool(b) => b
    case JNum(n) => n != 0
    case JStr(s) => s != ""
    case JArr(_) => true
    case JObj(_) => true
  }

  /** Different indices have different decimal keys. */
  lemma IndexKeysDistinct()
    ensures forall a: nat, b: nat :: NatToString(a) == NatToString(b) ==> a == b
  {
    forall a: nat, b: nat ensures NatToString(a) == NatToString(b) ==> a == b {
      NatToStringInjective(a, b);
    }
  }

  /** The properties of a list of values under their decimal indices `"0"`, `"1"`, .... */
  function Indexed(items: seq<Json>): (r: Record)
    ensures forall k :: 0 <= k < |items| ==> NatToString(k) in r && r[NatToString(k)] == items[k]
    ensures forall key :: key in r ==> AllDigits(key)
    ensures forall key :: key in r ==> exists k :: 0 <= k < |items| && key == NatToString(k)
  {
    if items == [] then map[]
    else
      var n := |items| - 1;
      IndexKeysDistinct();
      Indexed(items[..n])[NatToString(n) := items[n]]
  }

  /**
   * The own properties `{ ...v }` copies out of a value: an object's fields,
   * an array's or a string's elements under their decimal indices, and
   * nothing for null, a boolean or a number. Reading `v.page` or
   * `v.document` gives the same as looking the key up here.
   */
  function Spread(v: Json): (r: Record)
    ensures v.JObj? ==> r == v.fields
    ensures v.JArr? ==> forall k :: 0 <= k < |v.items| ==> NatToString(k) in r && r[NatToString(k)] == v.items[k]
    ensures v.JStr? ==> forall k :: 0 <= k < |v.s| ==> NatToString(k) in r && r[NatToString(k)] == JStr([v.s[k]])
    ensures v.JArr? ==> forall key :: key in r ==> exists k :: 0 <= k < |v.items| && key == NatToString(k)
    ensures v.JStr? ==> forall key :: key in r ==> exists k :: 0 <= k < |v.s| && key == NatToString(k)
    ensures !v.JObj? ==> forall key :: key in r ==> AllDigits(key)
    ensures v.JNull? || v.JBool? || v.JNum? ==> r == map[]
  {
    match v
    case JObj(fields) => fields
    case JArr(items) => Indexed(items)
    case JStr(s) => Indexed(seq(|s|, k requires 0 <= k < |s| => JStr([s[k]])))
    case _ => map[]
  }

  /** `fields[key] || fallback`, with a missing key read as `undefined`. */
  function OrDefault(fields: Record, key: string, fallback: string): (r: Json)
    ensures key in fields && Truthy(fields[key]) ==> r == fields[key]
    ensures !(key in fields && Truthy(fields[key])) ==> r == JStr(fallback)
    ensures Truthy(r) <==> (key in fields && Truthy(fields[key])) || fallback != ""
  {
    if key in fields && Truthy(fields[key]) then fields[key] else JStr(fallback)
  }

  /**
   * `({ ...log, user: 'Guest', currentPage: log.page || '-', document: log.document || 'N/A' })`
   * applied to the properties of `log`.
   */
  function Enrich(fields: Record): (r: Record)
    ensures "user" in r && r["user"] == JStr("Guest")
    ensures "currentPage" in r && Truthy(r["currentPage"])
    ensures "page" in fields && Truthy(fields["page"]) ==> r["currentPage"] == fields["page"]
    ensures !("page" in fields && Truthy(fields["page"])) ==> r["currentPage"] == JStr("-")
    ensures "document" in r && Truthy(r["document"])
    ensures "document" in fields && Truthy(fields["document"]) ==> r["document"] == fields["document"]
    ensures !("document" in fields && Truthy(fields["document"])) ==> r["document"] == JStr("N/A")
    ensures forall k :: k != "user" && k != "currentPage" && k != "document" ==>
              (k in r <==> k in fields) && (k in fields ==> r[k] == fields[k])
  {
    fields["user" := JStr("Guest")]["currentPage" := OrDefault(fields, "page", "-")]["document" := OrDefault(fields, "document", "N/A")]
  }

  /** Enriching an enriched record changes nothing. */
  lemma EnrichIdempotent(fields: Record)
    ensures Enrich(Enrich(fields)) == Enrich(fields)
  {
    var once := Enrich(fields);
    var twice := Enrich(once);
    assert twice.Keys == once.Keys;
    forall k | k in once ensures twice[k] == once[k] {
    }
  }

  /** `localLogs.map(...)` over an array none of whose elements is null. */
  function EnrichLogs(logs: seq<Json>): (r: seq<Record>)
    requires JNull !in logs
    ensures |r| == |logs|
    ensures forall k :: 0 <= k < |logs| ==> r[k] == Enrich(Spread(logs[k]))
  {
    if logs == [] then [] else [Enrich(Spread(logs[0]))] + EnrichLogs(logs[1..])
  }

  /** What `JSON.parse(localStorage.getItem(LogKey) || '[]')` gives; a missing key reads as `'[]'`. */
  function StoredValue(items: map<string, Option<Json>>): (r: Option<Json>)
    ensures LogKey !in items ==> r == Some(JArr([]))
    ensures LogKey in items ==> r == items[LogKey]
  {
    if LogKey in items then items[LogKey] else Some(JArr([]))
  }

  /**
   * The records the page shows after reading the store. Every way the
   * `try` block can throw gives the empty list: the text does not parse, the
   * parsed value is not an array (`.map` is not a function), or an element is
   * null (`log.page` on null).
   */
  function ReadLogs(items: map<string, Option<Json>>): (r: seq<Record>)
    ensures LogKey !in items ==> r == []
    ensures LogKey in items && items[LogKey].None? ==> r == []
    ensures StoredValue(items).Some? && !StoredValue(items).value.JArr? ==> r == []
    ensures StoredValue(items).Some? && StoredValue(items).value.JArr? && JNull in StoredValue(items).value.items ==> r == []
    ensures forall k :: 0 <= k < |r| ==> "user" in r[k] && r[k]["user"] == JStr("Guest")
  {
    match StoredValue(items)
    case Some(JArr(logs)) => if JNull in logs then [] else EnrichLogs(logs)
    case _ => []
  }

  /** When the stored array holds no null, the page shows one enriched record per stored one, in stored order. */
  lemma ReadLogsPreservesOrder(items: map<string, Option<Json>>, logs: seq<Json>)
    requires StoredValue(items) == Some(JArr(logs)) && JNull !in logs
    ensures |ReadLogs(items)| == |logs|
    ensures forall k :: 0 <= k < |logs| ==> ReadLogs(items)[k] == Enrich(Spread(logs[k]))
  {
  }

  /**
   * An array, a string, a boolean or a number has no `page` or `document` property:
   * its spread's keys are decimal indices, so its record shows the defaults.
   */
  lemma NonObjectShowsDefaults(v: Json)
    requires !v.JObj? && !v.JNull?
    ensures Enrich(Spread(v))["currentPage"] == JStr("-")
    ensures Enrich(Spread(v))["document"] == JStr("N/A")
  {
    assert !IsDigit("page"[0]) && !IsDigit("document"[0]);
    assert "page" !in Spread(v) && "document" !in Spread(v);
  }

  /** The records as they would be stored again: each one as a JSON object. */
  function AsJson(records: seq<Record>): (r: seq<Json>)
    ensures |r| == |records|
    ensures forall k :: 0 <= k < |records| ==> r[k] == JObj(records[k])
  {
    if records == [] then [] else [JObj(records[0])] + AsJson(records[1..])
  }

  /**
   * Storing the shown records back under the key and reading again shows the
   * same records: the enrichment's defaults make a second pass change nothing.
   */
  lemma ReadBackIsStable(items: map<string, Option<Json>>)
    ensures ReadLogs(items[LogKey := Some(JArr(AsJson(ReadLogs(items))))]) == ReadLogs(items)
  {
    var shown := ReadLogs(items);
    var stored := AsJson(shown);
    var again := items[LogKey := Some(JArr(stored))];
    assert JNull !in stored by {
      forall k | 0 <= k < |stored| ensures stored[k] != JNull {
      }
    }
    assert StoredValue(again) == Some(JArr(stored));
    var shownAgain := EnrichLogs(stored);
    forall k | 0 <= k < |shown| ensures shownAgain[k] == shown[k] {
      var logs := StoredValue(items).value.items;
      assert shown[k] == Enrich(Spread(logs[k]));
      EnrichIdempotent(Spread(logs[k]));
    }
  }

  /** The browser's local storage. */
  class Storage {
    var items: map<string, Option<Json>>

    constructor (items: map<string, Option<Json>>)
      ensures this.items == items
    {
      this.items := items;
    }

    /** `localStorage.removeItem(key)`. */
    method RemoveItem(key: string)
      modifies this
      ensures items == old(items) - {key}
    {
      items := items - {key};
    }
  }

  /** The audit-log page's state. */
  class AuditLogView {
    const storage: Storage
    var logs: seq<Record>

    /** `useState([])`. */
    constructor (storage: Storage)
      ensures this.storage == storage && logs == []
    {
      this.storage := storage;
      logs := [];
    }

    /** The mount effect: read the store and show the enriched records, or nothing when any step throws. */
    method LoadLogs()
      modifies this
      ensures logs == ReadLogs(storage.items)
    {
      logs := ReadLogs(storage.items);
    }

    /**
     * `clearLogs()`: remove the key and show nothing; a fresh read then shows
     * nothing, and clearing an already cleared log changes nothing.
     */
    method ClearLogs()
      modifies this, storage
      ensures storage.items == old(storage.items) - {LogKey}
      ensures logs == [] && ReadLogs(storage.items) == []
      ensures LogKey !in old(storage.items) ==> storage.items == old(storage.items)
    {
      storage.RemoveItem(LogKey);
      logs := [];
    }
  }
}
