/**
 * The ddnss adapter (package ddnss, client.go): the host name it sends to
 * ddnss.de, the query parameters of an update request, and the scan of the
 * reply page for the "Updated " confirmation. The HTTP exchange and the HTML
 * parse are not modelled: what the server answered is a parameter (`Reply`).
 */
module Ddnss {
  import opened Wrappers
  import opened GoStrings
  import opened UrlValues
  import opened Libdns

  /** The cutset handed to strings.TrimLeft by getMainDomain. */
  const AcmeCutset: string := "_acme-challenge."

  /** The text a `<font>` element of the reply must start with for the update to count as done. */
  const UpdatedMarker: string := "Updated "

  datatype Error =
    | UnsupportedRecordType(recordType: string)
    /** "unable to find the main domain for: <domain>" */
    | NoMainDomain(domain: string)
    /** An error of the HTTP request, passed through unchanged. */
    | Transport(message: string)
    /** "DDNSS request failed, expected (OK) but got url: [..], body: .." */
    | RequestFailed(query: Values, body: string)
    /** A Go panic with this message (the adapter does not return in that case). */
    | Panic(message: string)

  /**
   * What came back for the request: a transport failure, a body the HTML
   * parser rejected, or a page with the data of the first child node of
   * each `<font>` element in document order (None for an element without
   * children).
   */
  datatype Reply =
    | TransportFailure(message: string)
    | Unparsable(body: string)
    | Page(body: string, fonts: seq<Option<string>>)

  /**
   * getMainDomain: one trailing dot removed, then every leading character
   * that occurs in "_acme-challenge." removed. This is a character-set trim,
   * so "example.com" loses its "e" as well.
   */
  function GetMainDomain(domain: string): (r: string)
    ensures |r| <= |domain|
    ensures var d := TrimSuffix(domain, "."); |r| <= |d| && r == d[|d| - |r|..]
    ensures var d := TrimSuffix(domain, "."); forall i :: 0 <= i < |d| - |r| ==> d[i] in AcmeCutset
    ensures r == [] || r[0] !in AcmeCutset
  {
    TrimLeft(TrimSuffix(domain, "."), AcmeCutset)
  }

  /** The main domain is empty exactly when, after dropping one trailing dot, only cutset characters are left. */
  lemma MainDomainEmptyIff(domain: string)
    ensures var d := TrimSuffix(domain, ".");
      GetMainDomain(domain) == [] <==> forall i :: 0 <= i < |d| ==> d[i] in AcmeCutset
  {
    var d := TrimSuffix(domain, ".");
    if forall i :: 0 <= i < |d| ==> d[i] in AcmeCutset {
      TrimLeftCutsAtFirstOther(d, AcmeCutset, |d|);
    }
  }

  /** The character-set trim also eats the "e" of "example". */
  lemma MainDomainOfPlainName()
    ensures GetMainDomain("example.com") == "xample.com"
  {
    TrimSuffixDot("example.com");
    TrimLeftCutsAtFirstOther("example.com", AcmeCutset, 1);
  }

  /** A challenge name whose zone starts with a cutset character loses more than the "_acme-challenge." label. */
  lemma MainDomainOfChallengeName()
    ensures GetMainDomain("_acme-challenge.example.com.") == "xample.com"
  {
    TrimSuffixDot("_acme-challenge.example.com.");
    assert TrimSuffix("_acme-challenge.example.com.", ".") == "_acme-challenge.example.com";
    TrimLeftCutsAtFirstOther("_acme-challenge.example.com", AcmeCutset, 17);
  }

  /** When the zone starts with a character outside the cutset, exactly the challenge label goes. */
  lemma MainDomainOfOtherChallengeName()
    ensures GetMainDomain("_acme-challenge.www.example.org") == "www.example.org"
  {
    TrimSuffixDot("_acme-challenge.www.example.org");
    TrimLeftCutsAtFirstOther("_acme-challenge.www.example.org", AcmeCutset, 16);
  }

  /** The ddnss query parameter that carries the value of a record of this type, if the type is supported. */
  function ValueParameter(recordType: string): (p: Option<string>)
    ensures p.Some? <==> recordType in {"TXT", "A", "AAAA"}
    ensures p.Some? ==> p.value !in {"verbose", "txtm", "host", "key"}
  {
    match recordType
    case "TXT" => Some("txt")
    case "A" => Some("ip")
    case "AAAA" => Some("ipv6")
    case _ => None
  }

  /** The txtm mode: 2 replaces (clears) the record, 1 appends. */
  function TxtMode(clear: bool): string
  {
    if clear then "2" else "1"
  }

  /**
   * The parameters setRecord hands to doRequest, or the error it returns for
   * an unsupported record type.
   */
  function RequestParams(record: Record, clear: bool): (r: Result<map<string, string>, Error>)
    ensures r.Ok? <==> record.recordType in {"TXT", "A", "AAAA"}
    ensures r.Err? ==> r.error == UnsupportedRecordType(record.recordType)
    ensures r.Ok? ==> |r.value| == 3 && r.value.Keys == {"verbose", "txtm", ValueParameter(record.recordType).value}
    ensures r.Ok? ==> r.value["verbose"] == "true" && r.value["txtm"] == TxtMode(clear)
    ensures r.Ok? ==> r.value[ValueParameter(record.recordType).value] == record.value
  {
    match ValueParameter(record.recordType)
    case None => Err(UnsupportedRecordType(record.recordType))
    case Some(name) => Ok(map["verbose" := "true", name := record.value, "txtm" := TxtMode(clear)])
  }

  /**
   * The query doRequest sends: host and key set first, then every parameter
   * set over them. Every key holds exactly one value.
   */
  function QueryFor(mainDomain: string, apiToken: string, params: map<string, string>): (q: Values)
    ensures q.Keys == {"host", "key"} + params.Keys
    ensures SingleValued(q)
    ensures forall k :: k in params ==> q[k] == [params[k]]
    ensures "host" !in params ==> q["host"] == [mainDomain]
    ensures "key" !in params ==> q["key"] == [apiToken]
  {
    map k | k in {"host", "key"} + params.Keys ::
      if k in params then [params[k]] else if k == "host" then [mainDomain] else [apiToken]
  }

  /**
   * An update request for a supported record carries exactly five keys, each
   * with one value: host (the main domain), key (the API token), verbose,
   * txtm and the value parameter of the record type.
   */
  lemma UpdateQueryShape(apiToken: string, domain: string, record: Record, clear: bool)
    requires RequestParams(record, clear).Ok? && GetMainDomain(domain) != []
    ensures var q := QueryFor(GetMainDomain(domain), apiToken, RequestParams(record, clear).value);
      var name := ValueParameter(record.recordType).value;
      q.Keys == {"host", "key", "verbose", "txtm", name} && |q| == 5 &&
      q["host"] == [GetMainDomain(domain)] && q["key"] == [apiToken] &&
      q["verbose"] == ["true"] && q["txtm"] == [TxtMode(clear)] && q[name] == [record.value]
  {
    var name := ValueParameter(record.recordType).value;
    var params := RequestParams(record, clear).value;
    QueryShape(GetMainDomain(domain), apiToken, params, name);
  }

  lemma QueryShape(mainDomain: string, apiToken: string, params: map<string, string>, name: string)
    requires params.Keys == {"verbose", "txtm", name}
    requires name !in {"verbose", "txtm", "host", "key"}
    ensures var q := QueryFor(mainDomain, apiToken, params);
      q.Keys == {"host", "key", "verbose", "txtm", name} && |q| == 5 &&
      q["host"] == [mainDomain] && q["key"] == [apiToken] &&
      q["verbose"] == [params["verbose"]] && q["txtm"] == [params["txtm"]] && q[name] == [params[name]]
  {
    var q := QueryFor(mainDomain, apiToken, params);
    var fixed := {"host", "key", "verbose", "txtm"};
    assert q.Keys == fixed + {name};
    assert |fixed| == 4;
    assert |q.Keys| == |fixed| + 1;
  }

  /** Setting the parameters over a query holding host and key gives QueryFor. */
  lemma IsQueryFor(mainDomain: string, apiToken: string, params: map<string, string>, base: Values, q: Values)
    requires base == map["host" := [mainDomain], "key" := [apiToken]]
    requires q.Keys == base.Keys + params.Keys
    requires forall k :: k in params ==> q[k] == [params[k]]
    requires forall k :: k in base && k !in params ==> q[k] == base[k]
    ensures q == QueryFor(mainDomain, apiToken, params)
  {
    var expected := QueryFor(mainDomain, apiToken, params);
    assert q.Keys == expected.Keys;
    forall k | k in q
      ensures q[k] == expected[k]
    {
      if k !in params {
        assert k in base;
      }
    }
  }

  /** A `<font>` element confirms the update when its first child's trimmed text starts with "Updated ". */
  predicate Confirms(font: Option<string>)
    ensures Confirms(font) <==> font.Some? && Index(TrimSpace(font.value), UpdatedMarker) == 0
  {
    if font.Some? then
      IndexZeroIffPrefix(TrimSpace(font.value), UpdatedMarker);
      UpdatedMarker <= TrimSpace(font.value)
    else
      false
  }

  /** Some element of the list confirms the update, checked front to back. */
  predicate Acknowledged(fonts: seq<Option<string>>)
    ensures Acknowledged(fonts) <==> exists i :: 0 <= i < |fonts| && Confirms(fonts[i])
  {
    if fonts == [] then false
    else
      assert forall i :: 1 <= i < |fonts| ==> fonts[1..][i - 1] == fonts[i];
      Confirms(fonts[0]) || Acknowledged(fonts[1..])
  }

  /** How doRequest turns the reply to the request `query` into its result. */
  function ReplyOutcome(domain: string, query: Values, reply: Reply): (r: Result<seq<string>, Error>)
    ensures r.Ok? <==> reply.Page? && exists i :: 0 <= i < |reply.fonts| && Confirms(reply.fonts[i])
    ensures r.Ok? ==> r.value == [domain]
    ensures reply.TransportFailure? ==> r == Err(Transport(reply.message))
    ensures reply.Page? && reply.fonts == [] ==> r == Err(Panic("abort nodes"))
    ensures reply.Page? && !r.Ok? && reply.fonts != [] ==> r == Err(RequestFailed(query, reply.body))
  {
    match reply
    case TransportFailure(message) => Err(Transport(message))
    case Unparsable(_) => Err(Panic("not a valid XPath expression."))
    case Page(body, fonts) =>
      if fonts == [] then Err(Panic("abort nodes"))
      else if Acknowledged(fonts) then Ok([domain])
      else Err(RequestFailed(query, body))
  }

  /**
   * The loop of doRequest that sets every parameter on the query, visiting
   * the keys in no fixed order, as Go's map iteration is unordered.
   */
  method SetAll(query: Values, params: map<string, string>) returns (q: Values)
    ensures q.Keys == query.Keys + params.Keys
    ensures forall k :: k in params ==> q[k] == [params[k]]
    ensures forall k :: k in query && k !in params ==> q[k] == query[k]
  {
    q := query;
    var pending := params.Keys;
    while pending != {}
      invariant pending <= params.Keys
      invariant q.Keys == query.Keys + (params.Keys - pending)
      invariant forall k :: k in params && k !in pending ==> q[k] == [params[k]]
      invariant forall k :: k in query && (k !in params || k in pending) ==> q[k] == query[k]
      decreases pending
    {
      var key :| key in pending;
      q := Set(q, key, params[key]);
      pending := pending - {key};
    }
  }

  /**
   * The loop of doRequest over the `<font>` texts: it skips elements without
   * a first child and stops at the first confirmation.
   */
  method ScanFonts(fonts: seq<Option<string>>) returns (found: bool)
    ensures found == Acknowledged(fonts)
  {
    var i := 0;
    while i < |fonts|
      invariant 0 <= i <= |fonts|
      invariant Acknowledged(fonts) == Acknowledged(fonts[i..])
    {
      var font := fonts[i];
      if font.Some? {
        var text := TrimSpace(font.value);
        if Index(text, UpdatedMarker) == 0 {
          return true;
        }
      }
      assert fonts[i..][1..] == fonts[i + 1..];
      i := i + 1;
    }
    return false;
  }

  /**
   * doRequest. `sent` is the query built for the request, None when none
   * is built. The loop over the `<font>` texts stops at the
   * first confirmation.
   */
  method DoRequest(apiToken: string, domain: string, params: map<string, string>, reply: Reply)
    returns (sent: Option<Values>, res: Result<seq<string>, Error>)
    ensures sent.None? <==> GetMainDomain(domain) == []
    ensures sent.None? ==> res == Err(NoMainDomain(domain))
    ensures sent.Some? ==> sent.value == QueryFor(GetMainDomain(domain), apiToken, params)
    ensures sent.Some? ==> res == ReplyOutcome(domain, sent.value, reply)
    ensures res.Ok? ==> res.value == [domain]
  {
    var mainDomain := GetMainDomain(domain);
    if |mainDomain| == 0 {
      return None, Err(NoMainDomain(domain));
    }

    var query: Values := map[];
    query := Set(query, "host", mainDomain);
    query := Set(query, "key", apiToken);

    var base := query;
    assert base.Keys == {"host", "key"};
    query := SetAll(query, params);
    IsQueryFor(mainDomain, apiToken, params, base, query);
    sent := Some(query);

    match reply {
      case TransportFailure(message) =>
        return sent, Err(Transport(message));
      case Unparsable(_) =>
        return sent, Err(Panic("not a valid XPath expression."));
      case Page(body, fonts) =>
        if |fonts| == 0 {
          return sent, Err(Panic("abort nodes"));
        }
        var found := ScanFonts(fonts);
        if found {
          return sent, Ok([domain]);
        }
        return sent, Err(RequestFailed(query, body));
    }
  }

  /**
   * setRecord with the absolute record name `domain` already formed. `sent`
   * is the query of the update request, None when none is made.
   */
  method SetRecord(apiToken: string, domain: string, record: Record, clear: bool, reply: Reply)
    returns (sent: Option<Values>, err: Option<Error>)
    ensures RequestParams(record, clear).Err? ==> sent == None && err == Some(UnsupportedRecordType(record.recordType))
    ensures RequestParams(record, clear).Ok? && GetMainDomain(domain) == [] ==>
      sent == None && err == Some(NoMainDomain(domain))
    ensures RequestParams(record, clear).Ok? && GetMainDomain(domain) != [] ==>
      sent == Some(QueryFor(GetMainDomain(domain), apiToken, RequestParams(record, clear).value)) &&
      err == ErrorOf(ReplyOutcome(domain, sent.value, reply))
  {
    var params := map["verbose" := "true"];
    match record.recordType {
      case "TXT" => params := params["txt" := record.value];
      case "A" => params := params["ip" := record.value];
      case "AAAA" => params := params["ipv6" := record.value];
      case _ => return None, Some(UnsupportedRecordType(record.recordType));
    }
    if clear {
      params := params["txtm" := "2"];
    } else {
      params := params["txtm" := "1"];
    }
    assert params == RequestParams(record, clear).value;

    var res;
    sent, res := DoRequest(apiToken, domain, params, reply);
    err := ErrorOf(res);
  }
}
