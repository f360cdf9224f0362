/**
 * The Dinahosting adapter (package dinahosting, provider.go): the query of
 * the Domain_Zone_GetAll call, the translation of the zone records it
 * returns into libdns records, and the three record operations that are
 * not implemented. The HTTP exchange and the JSON decoding are not
 * modelled: the decoded records are a parameter (`Reply`).
 */
module Dinahosting {
  import opened Wrappers
  import opened GoStrings
  import opened UrlValues
  import opened Libdns

  /** The message of every operation that is not implemented. */
  const NotImplementedMessage: string := "TODO: not implemented"

  /** One element of the `data` array of a Domain_Zone_GetAll response (absent fields decode as ""). */
  datatype ZoneRecord = ZoneRecord(
    recordType: string,
    hostname: string,
    destinationHostname: string,
    ip: string,
    address: string,
    text: string)

  datatype Error =
    /** An error of the HTTP request, passed through unchanged. */
    | Transport(message: string)
    | NotImplemented(message: string)

  /**
   * What came back for the request: a transport failure, or the records the
   * JSON decoder filled in (a decoding error is ignored, and the response
   * code is never looked at, so any decoded records are taken as they are).
   */
  datatype Reply =
    | TransportFailure(message: string)
    | Decoded(records: seq<ZoneRecord>)

  /** The fields that may hold a record's value, in the order they are tried. */
  function ValueFields(z: ZoneRecord): seq<string>
  {
    [z.destinationHostname, z.ip, z.address, z.text]
  }

  /** The first non-empty string of the list, or "" when all are empty. */
  function FirstNonEmpty(candidates: seq<string>): (v: string)
    ensures v == "" <==> forall i :: 0 <= i < |candidates| ==> candidates[i] == ""
    ensures v != "" ==> exists i :: 0 <= i < |candidates| && candidates[i] == v &&
                                  (forall j :: 0 <= j < i ==> candidates[j] == "")
  {
    if candidates == [] then ""
    else if candidates[0] != "" then candidates[0]
    else
      var v := FirstNonEmpty(candidates[1..]);
      assert forall i :: 1 <= i < |candidates| ==> candidates[1..][i - 1] == candidates[i];
      v
  }

  /** The libdns record GetRecords makes of one zone record. */
  function Translate(z: ZoneRecord): (r: Record)
    ensures r.recordType == z.recordType && r.name == z.hostname
    ensures r.id == "" && r.ttl == 0 && r.priority == 0
    ensures r.value == "" <==> z.destinationHostname == "" && z.ip == "" && z.address == "" && z.text == ""
    ensures r.value != "" ==> r.value in ValueFields(z)
  {
    var c := ValueFields(z);
    assert c[0] == z.destinationHostname && c[1] == z.ip && c[2] == z.address && c[3] == z.text;
    Record("", z.recordType, z.hostname, FirstNonEmpty(ValueFields(z)), 0, 0)
  }

  /**
   * The query of the Domain_Zone_GetAll call: the credentials, the zone
   * without one trailing dot, JSON as the response type and the command,
   * each key holding one value.
   */
  predicate IsZoneQuery(q: Values, username: string, password: string, zone: string)
  {
    && q.Keys == {"AUTH_USER", "AUTH_PWD", "domain", "responseType", "command"}
    && SingleValued(q)
    && q["AUTH_USER"] == [username] && q["AUTH_PWD"] == [password]
    && q["domain"] == [TrimSuffix(zone, ".")]
    && q["responseType"] == ["json"] && q["command"] == ["Domain_Zone_GetAll"]
  }

  /** The query parameters of GetRecords, added key by key. */
  method ZoneQuery(username: string, password: string, zone: string) returns (q: Values)
    ensures IsZoneQuery(q, username, password, zone)
  {
    q := map[];
    q := Add(q, "AUTH_USER", username);
    q := Add(q, "AUTH_PWD", password);
    assert q.Keys == {"AUTH_USER", "AUTH_PWD"};
    q := Add(q, "domain", TrimSuffix(zone, "."));
    assert q.Keys == {"AUTH_USER", "AUTH_PWD", "domain"};
    q := Add(q, "responseType", "json");
    assert q.Keys == {"AUTH_USER", "AUTH_PWD", "domain", "responseType"};
    q := Add(q, "command", "Domain_Zone_GetAll");
  }

  /**
   * GetRecords. `query` is the query string of the request, as url.Values;
   * the result holds one translated record per zone record, in order.
   */
  method GetRecords(username: string, password: string, zone: string, reply: Reply)
    returns (query: Values, res: Result<seq<Record>, Error>)
    ensures IsZoneQuery(query, username, password, zone)
    ensures reply.TransportFailure? ==> res == Err(Transport(reply.message))
    ensures reply.Decoded? ==> res.Ok? && |res.value| == |reply.records|
    ensures reply.Decoded? ==> forall i :: 0 <= i < |reply.records| ==> res.value[i] == Translate(reply.records[i])
  {
    query := ZoneQuery(username, password, zone);

    if reply.TransportFailure? {
      return query, Err(Transport(reply.message));
    }

    var zoneRecords := reply.records;
    var records: seq<Record> := [];
    var i := 0;
    while i < |zoneRecords|
      invariant 0 <= i <= |zoneRecords|
      invariant |records| == i
      invariant forall j :: 0 <= j < i ==> records[j] == Translate(zoneRecords[j])
    {
      var z := zoneRecords[i];
      var value := "";
      if z.destinationHostname != "" {
        value := z.destinationHostname;
      } else if z.ip != "" {
        value := z.ip;
      } else if z.address != "" {
        value := z.address;
      } else if z.text != "" {
        value := z.text;
      }
      ValueIsFirstNonEmpty(z, value);
      records := records + [Record("", z.recordType, z.hostname, value, 0, 0)];
      i := i + 1;
    }
    return query, Ok(records);
  }

  /** The if/else-if chain of GetRecords picks the first non-empty value field. */
  lemma ValueIsFirstNonEmpty(z: ZoneRecord, value: string)
    requires value ==
      if z.destinationHostname != "" then z.destinationHostname
      else if z.ip != "" then z.ip
      else if z.address != "" then z.address
      else z.text
    ensures value == FirstNonEmpty(ValueFields(z))
  {
    var c := ValueFields(z);
    assert c[1..] == [z.ip, z.address, z.text];
    assert c[1..][1..] == [z.address, z.text];
    assert c[1..][1..][1..] == [z.text];
    assert c[1..][1..][1..][1..] == [];
    assert FirstNonEmpty([z.text]) == z.text;
    assert FirstNonEmpty([z.address, z.text]) == if z.address != "" then z.address else z.text;
    assert FirstNonEmpty([z.ip, z.address, z.text]) ==
      if z.ip != "" then z.ip else FirstNonEmpty([z.address, z.text]);
  }

  /** A translated record keeps type and name, carries the first non-empty value field and has ID, TTL and priority unset. */
  lemma TranslateFields(z: ZoneRecord)
    ensures var r := Translate(z);
      r.recordType == z.recordType && r.name == z.hostname &&
      r.id == "" && r.ttl == 0 && r.priority == 0
    ensures var v := Translate(z).value;
      (z.destinationHostname != "" ==> v == z.destinationHostname) &&
      (z.destinationHostname == "" && z.ip != "" ==> v == z.ip) &&
      (z.destinationHostname == "" && z.ip == "" && z.address != "" ==> v == z.address) &&
      (z.destinationHostname == "" && z.ip == "" && z.address == "" ==> v == z.text)
  {
    var value :=
      if z.destinationHostname != "" then z.destinationHostname
      else if z.ip != "" then z.ip
      else if z.address != "" then z.address
      else z.text;
    ValueIsFirstNonEmpty(z, value);
  }

  /** AppendRecords: not implemented; no records and an error for every input. */
  function AppendRecords(zone: string, records: seq<Record>): (r: Result<seq<Record>, Error>)
    ensures r.Err? && r.error == NotImplemented(NotImplementedMessage)
  {
    Err(NotImplemented(NotImplementedMessage))
  }

  /** SetRecords: not implemented; no records and an error for every input. */
  function SetRecords(zone: string, records: seq<Record>): (r: Result<seq<Record>, Error>)
    ensures r.Err? && r.error == NotImplemented(NotImplementedMessage)
  {
    Err(NotImplemented(NotImplementedMessage))
  }

  /** DeleteRecords: not implemented; no records and an error for every input. */
  function DeleteRecords(zone: string, records: seq<Record>): (r: Result<seq<Record>, Error>)
    ensures r.Err? && r.error == NotImplemented(NotImplementedMessage)
  {
    Err(NotImplemented(NotImplementedMessage))
  }
}
