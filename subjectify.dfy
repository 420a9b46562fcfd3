/**
 * subjectify.py: for each CSV row, pick a search key (ISBN, else ISSN, else
 * author and title), query OCLC Classify, read the response code and, for a
 * single-work answer, add the Dewey (ddc) and Library of Congress (lcc)
 * classifiers to the row; a multi-work answer leads to a second query by the
 * first listed work's identifier ("wi").
 *
 * The HTTP service is a LookupService object: a fixed answer per request URL
 * and the log of the URLs requested. The XML answer is abstracted to the nodes
 * the code reads (Tree). Python exceptions that the code can raise on a
 * well-formed row are explicit (Py.Raise).
 */
module Subjectify {
  import opened Wrappers

  const EndpointUrl := "http://classify.oclc.org/classify2/Classify"
  const BaseQuerystring := "?summary=true&maxRecs=1"

  /** Every request URL starts with the endpoint, the fixed parameters and a '&'. */
  const UrlPrefix := EndpointUrl + BaseQuerystring + "&"

  // ---------------------------------------------------------------------------
  // Query forming (oclc_search without the HTTP call)

  /** The `data` argument of oclc_search: a str, a tuple of strs, or any other Python value. */
  datatype SearchData = Text(text: string) | Tuple(items: seq<string>) | OtherData

  /** The search types whose data is a single string. */
  predicate IsIdentifierType(searchType: string)
  {
    searchType == "isbn" || searchType == "issn" || searchType == "wi"
  }

  /** The query part of the request, or None where oclc_search returns False. */
  function QueryString(searchType: string, data: SearchData): (q: Option<string>)
    ensures q.Some? <==>
      (IsIdentifierType(searchType) && data.Text?) || (searchType == "bib" && data.Tuple? && |data.items| == 2)
  {
    if IsIdentifierType(searchType) then
      if !data.Text? then None else Some(searchType + "=" + data.text)
    else if searchType == "bib" then
      if !data.Tuple? || |data.items| != 2 then None
      else Some("author=\"" + data.items[0] + "\"&title=\"" + data.items[1] + "\"")
    else None
  }

  /** `endpoint_url + base_querystring + "&" + query`. */
  function RequestUrl(query: string): (url: string)
    ensures |url| == |UrlPrefix| + |query|
    ensures url[..|UrlPrefix|] == UrlPrefix && url[|UrlPrefix|..] == query
  {
    EndpointUrl + BaseQuerystring + "&" + query
  }

  /** Different queries give different URLs. */
  lemma RequestUrlInjective(q1: string, q2: string)
    ensures RequestUrl(q1) == RequestUrl(q2) <==> q1 == q2
  {
    if RequestUrl(q1) == RequestUrl(q2) {
      assert q1 == RequestUrl(q1)[|UrlPrefix|..];
    }
  }

  /** Position of the first c in s, or |s| when there is none. */
  function IndexOf(s: string, c: char): (i: nat)
    ensures i <= |s|
    ensures i < |s| ==> s[i] == c
    ensures forall j :: 0 <= j < i ==> s[j] != c
  {
    if s == [] then 0 else if s[0] == c then 0 else 1 + IndexOf(s[1..], c)
  }

  lemma {:induction false} IndexOfAfterPrefix(p: string, c: char, s: string)
    requires c !in p
    ensures IndexOf(p + [c] + s, c) == |p|
  {
    if p != [] {
      IndexOfAfterPrefix(p[1..], c, s);
      assert (p + [c] + s)[1..] == p[1..] + [c] + s;
    }
  }

  /** Reads `<type>=<data>` back: the text before the first '=' and the text after it. */
  function ParseIdentifierQuery(q: string): (string, string)
  {
    var i := IndexOf(q, '=');
    (q[..i], if i < |q| then q[i + 1..] else "")
  }

  /** An identifier query names its search type and carries the data verbatim. */
  lemma IdentifierQueryRoundTrip(searchType: string, data: string)
    requires IsIdentifierType(searchType)
    ensures QueryString(searchType, Text(data)).Some?
    ensures ParseIdentifierQuery(QueryString(searchType, Text(data)).value) == (searchType, data)
  {
    var q := searchType + "=" + data;
    assert '=' !in searchType;
    IndexOfAfterPrefix(searchType, '=', data);
    assert q == searchType + ['='] + data;
    assert q[..|searchType|] == searchType;
    assert q[|searchType| + 1..] == data;
  }

  /** Reads `author="<a>"&title="<t>"` back, taking the author up to its first quote. */
  function ParseBibQuery(q: string): Option<(string, string)>
  {
    if |q| < 8 || q[..8] != "author=\"" then None
    else
      var rest := q[8..];
      var i := IndexOf(rest, '"');
      var after := rest[i..];
      if |after| < 10 || after[..9] != "\"&title=\"" || after[|after| - 1] != '"' then None
      else Some((rest[..i], after[9..|after| - 1]))
  }

  /** A bib query gives back its author and title, provided the author holds no double quote. */
  lemma BibQueryRoundTrip(author: string, title: string)
    requires '"' !in author
    ensures QueryString("bib", Tuple([author, title])).Some?
    ensures ParseBibQuery(QueryString("bib", Tuple([author, title])).value) == Some((author, title))
  {
    var q := QueryString("bib", Tuple([author, title])).value;
    var tail := "&title=\"" + title + "\"";
    assert q == "author=\"" + author + ['"'] + tail;
    assert q[8..] == author + ['"'] + tail;
    assert q[..8] == "author=\"";
    var rest := q[8..];
    IndexOfAfterPrefix(author, '"', tail);
    assert IndexOf(rest, '"') == |author|;
    assert rest[..|author|] == author;
    var after := rest[|author|..];
    assert after == "\"&title=\"" + title + "\"";
    assert after[..9] == "\"&title=\"";
    assert after[9..|after| - 1] == title;
  }

  // ---------------------------------------------------------------------------
  // Responses

  /**
   * The nodes of a Classify XML answer that the code reads: the code attribute
   * of classify:response (None when the node is absent), the nsfa attribute of
   * the ddc and lcc mostPopular nodes (None when absent), and the wi attribute
   * of each listed work.
   */
  datatype Tree = Tree(responseCode: Option<int>, ddc: Option<string>, lcc: Option<string>, works: seq<string>)

  /** A Python value given to get_tree: XML text (parsed, or None when it does not parse), an Element, False or None. */
  datatype PyValue = XmlText(parsed: Option<Tree>) | Element(tree: Tree) | PyFalse | PyNone

  /** The exceptions the resolution code can raise: `.attrib` on a node `find` did not find, or unpacking None. */
  datatype PyError = AttributeError | TypeError

  /** A Python call's outcome: a returned value or a raised exception. */
  datatype Py<T> = Return(value: T) | Raise(error: PyError)

  /** get_tree: an Element as it is, parsed XML text, or None for anything else. */
  function GetTree(v: PyValue): (t: Option<Tree>)
    ensures t.Some? <==> v.Element? || (v.XmlText? && v.parsed.Some?)
    ensures v.Element? ==> t == Some(v.tree)
    ensures v.XmlText? ==> t == v.parsed
  {
    match v
    case XmlText(parsed) => parsed
    case Element(tree) => Some(tree)
    case _ => None
  }

  /** extract_response: the integer response code, or None. */
  function ExtractResponse(v: PyValue): (code: Option<int>)
    ensures GetTree(v).None? ==> code.None?
    ensures GetTree(v).Some? ==> code == GetTree(v).value.responseCode
  {
    match GetTree(v)
    case None => None
    case Some(tree) => tree.responseCode
  }

  /** Whether a response code announces a single work (0: summary, 2: detail). */
  predicate IsSingleWork(code: Option<int>)
  {
    code == Some(0) || code == Some(2)
  }

  /** extract_ids: the (ddc, lcc) pair of a single-work answer; None for any other code. */
  function ExtractIds(v: PyValue): (r: Py<Option<(string, string)>>)
    ensures !IsSingleWork(ExtractResponse(v)) ==> r == Return(None)
    ensures r.Return? && r.value.Some? ==>
      IsSingleWork(ExtractResponse(v)) &&
      GetTree(v).value.ddc == Some(r.value.value.0) && GetTree(v).value.lcc == Some(r.value.value.1)
    ensures IsSingleWork(ExtractResponse(v)) ==>
      (r.Raise? <==> GetTree(v).value.ddc.None? || GetTree(v).value.lcc.None?)
    ensures IsSingleWork(ExtractResponse(v)) && GetTree(v).value.ddc.Some? && GetTree(v).value.lcc.Some? ==>
      r == Return(Some((GetTree(v).value.ddc.value, GetTree(v).value.lcc.value)))
  {
    match GetTree(v)
    case None => Return(None)
    case Some(tree) =>
      if !IsSingleWork(tree.responseCode) then Return(None)
      else if tree.ddc.None? || tree.lcc.None? then Raise(AttributeError)
      else Return(Some((tree.ddc.value, tree.lcc.value)))
  }

  /** resolve_multiple: the first listed work's identifier of a multi-work answer; None for any other code. */
  function ResolveMultiple(v: PyValue): (r: Py<Option<string>>)
    ensures ExtractResponse(v) != Some(4) ==> r == Return(None)
    ensures ExtractResponse(v) == Some(4) ==>
      r == if GetTree(v).value.works == [] then Raise(AttributeError) else Return(Some(GetTree(v).value.works[0]))
  {
    match GetTree(v)
    case None => Return(None)
    case Some(tree) =>
      if tree.responseCode != Some(4) then Return(None)
      else if tree.works == [] then Raise(AttributeError)
      else Return(Some(tree.works[0]))
  }

  // ---------------------------------------------------------------------------
  // The lookup service

  /** What one GET of the service gives: no usable answer (exception or status other than 200), or the answer's body. */
  datatype Reply = Failed | Content(body: Option<Tree>)

  /** The OCLC Classify endpoint as seen from the program: a fixed answer per URL and the log of requests. */
  class LookupService {
    const reply: string -> Reply
    var requested: seq<string>

    constructor (reply: string -> Reply)
      ensures this.reply == reply && requested == []
    {
      this.reply := reply;
      requested := [];
    }

    /** `requests.get(url)`, reduced to what oclc_search keeps of it. */
    method Get(url: string) returns (r: Reply)
      modifies this
      ensures r == reply(url)
      ensures requested == old(requested) + [url]
    {
      r := reply(url);
      requested := requested + [url];
    }
  }

  /** The value oclc_search returns: False for a bad search, None for no answer, else the answer's text. */
  function SearchValue(searchType: string, data: SearchData, reply: string -> Reply): (v: PyValue)
    ensures v.PyFalse? <==> QueryString(searchType, data).None?
    ensures !v.Element?
    ensures var q := QueryString(searchType, data);
      q.Some? ==>
        var answer := reply(RequestUrl(q.value));
        && (v.PyNone? <==> answer.Failed?)
        && (answer.Content? ==> v == XmlText(answer.body))
  {
    match QueryString(searchType, data)
    case None => PyFalse
    case Some(query) =>
      match reply(RequestUrl(query))
      case Failed => PyNone
      case Content(body) => XmlText(body)
  }

  /** The requests oclc_search issues: none for a bad search, else one. */
  function SearchRequests(searchType: string, data: SearchData): (urls: seq<string>)
    ensures var q := QueryString(searchType, data);
      urls == if q.Some? then [RequestUrl(q.value)] else []
  {
    match QueryString(searchType, data)
    case None => []
    case Some(query) => [RequestUrl(query)]
  }

  /** oclc_search. */
  method OclcSearch(searchType: string, data: SearchData, service: LookupService) returns (v: PyValue)
    modifies service
    ensures v == SearchValue(searchType, data, service.reply)
    ensures service.requested == old(service.requested) + SearchRequests(searchType, data)
  {
    var query := QueryString(searchType, data);
    if query.None? {
      return PyFalse;
    }
    var response := service.Get(RequestUrl(query.value));
    match response
    case Failed => v := PyNone;
    case Content(body) => v := XmlText(body);
  }

  // ---------------------------------------------------------------------------
  // Rows and the per-row resolution

  /** A CSV row as a dictionary from column name to value; process_row adds "ddc" and "lcc" in place. */
  class Row {
    var fields: map<string, string>

    constructor (fields: map<string, string>)
      ensures this.fields == fields
    {
      this.fields := fields;
    }
  }

  /** The columns process_row reads (the default field list of the program). */
  predicate HasSearchColumns(fields: map<string, string>)
  {
    "isbn" in fields && "issn" in fields && "author" in fields && "title" in fields
  }

  /** The search key by explicit priority: a non-empty ISBN, else a non-empty ISSN, else author and title when both are non-empty. */
  function SearchKey(fields: map<string, string>): Option<(string, SearchData)>
    requires HasSearchColumns(fields)
  {
    if fields["isbn"] != "" then Some(("isbn", Text(fields["isbn"])))
    else if fields["issn"] != "" then Some(("issn", Text(fields["issn"])))
    else if fields["author"] != "" && fields["title"] != "" then Some(("bib", Tuple([fields["author"], fields["title"]])))
    else None
  }

  /** The key selection of process_row: from least to most preferable, each later non-empty column overwrites the choice. */
  method SelectSearch(fields: map<string, string>) returns (searchType: Option<string>, data: SearchData)
    requires HasSearchColumns(fields)
    ensures searchType.None? <==> SearchKey(fields).None?
    ensures searchType.Some? ==> SearchKey(fields) == Some((searchType.value, data))
  {
    searchType := None;
    data := OtherData;
    if fields["author"] != "" && fields["title"] != "" {
      searchType := Some("bib");
      data := Tuple([fields["author"], fields["title"]]);
    }
    if fields["issn"] != "" {
      searchType := Some("issn");
      data := Text(fields["issn"]);
    }
    if fields["isbn"] != "" {
      searchType := Some("isbn");
      data := Text(fields["isbn"]);
    }
  }

  /** What resolving a row comes to: nothing, a (ddc, lcc) pair, or an exception. */
  datatype Resolution = Unresolved | Classified(ddc: string, lcc: string) | Raised(error: PyError)

  /** A resolution with the service requests it took, in order. */
  datatype Outcome = Outcome(result: Resolution, requests: seq<string>)

  /** `row["ddc"], row["lcc"] = extract_ids(...)`: a pair is stored, None cannot be unpacked. */
  function Unpack(ids: Py<Option<(string, string)>>): (r: Resolution)
    ensures r.Classified? <==> ids.Return? && ids.value.Some?
    ensures r.Classified? ==> ids.value.value == (r.ddc, r.lcc)
    ensures ids.Raise? ==> r == Raised(ids.error)
    ensures ids == Return(None) ==> r == Raised(TypeError)
  {
    match ids
    case Raise(e) => Raised(e)
    case Return(None) => Raised(TypeError)
    case Return(Some((ddc, lcc))) => Classified(ddc, lcc)
  }

  /** process_row as a function of the row's columns and the service's answers. */
  function Resolve(fields: map<string, string>, reply: string -> Reply): (o: Outcome)
    requires HasSearchColumns(fields)
    ensures |o.requests| <= 2
    ensures o.requests == [] <==> SearchKey(fields).None?
  {
    match SearchKey(fields)
    case None => Outcome(Unresolved, [])
    case Some((searchType, data)) =>
      var record := SearchValue(searchType, data, reply);
      var first := SearchRequests(searchType, data);
      var status := ExtractResponse(record);
      if status.None? || status.value >= 100 then Outcome(Unresolved, first)
      else if IsSingleWork(status) then Outcome(Unpack(ExtractIds(record)), first)
      else if status == Some(4) then
        match ResolveMultiple(record)
        case Raise(e) => Outcome(Raised(e), first)
        case Return(wi) =>
          if wi.None? || wi.value == "" then Outcome(Unresolved, first)
          else
            var parent := SearchValue("wi", Text(wi.value), reply);
            var both := first + SearchRequests("wi", Text(wi.value));
            if IsSingleWork(ExtractResponse(parent)) then Outcome(Unpack(ExtractIds(parent)), both)
            else Outcome(Unresolved, both)
      else Outcome(Unresolved, first)
  }

  /** The row after resolution: augmented with ddc and lcc when classified, otherwise as it was. */
  function Apply(fields: map<string, string>, result: Resolution): map<string, string>
  {
    if result.Classified? then fields["ddc" := result.ddc]["lcc" := result.lcc] else fields
  }

  /** What process_row gives back for a resolution: the row itself when classified, None when not, or the exception. */
  function Returned(row: Row, result: Resolution): Py<Option<Row>>
  {
    match result
    case Unresolved => Return(None)
    case Classified(_, _) => Return(Some(row))
    case Raised(e) => Raise(e)
  }

  /**
   * process_row: returns the same row object, augmented in place, when it is
   * classified; returns None, leaving the row untouched, when it is not; an
   * exception leaves the row untouched as well.
   */
  method ProcessRow(row: Row, service: LookupService) returns (r: Py<Option<Row>>)
    requires HasSearchColumns(row.fields)
    modifies row, service
    ensures var outcome := Resolve(old(row.fields), service.reply);
      && service.requested == old(service.requested) + outcome.requests
      && row.fields == Apply(old(row.fields), outcome.result)
      && r == Returned(row, outcome.result)
  {
    var searchType, data := SelectSearch(row.fields);
    if searchType.None? {
      return Return(None);
    }
    var record := OclcSearch(searchType.value, data, service);
    var status := ExtractResponse(record);

    if status.None? || status.value >= 100 {
      return Return(None);
    } else if IsSingleWork(status) {
      var ids := ExtractIds(record);
      if ids.Raise? {
        return Raise(ids.error);
      } else if ids.value.None? {
        return Raise(TypeError);
      }
      row.fields := row.fields["ddc" := ids.value.value.0]["lcc" := ids.value.value.1];
      return Return(Some(row));
    } else if status == Some(4) {
      var wi := ResolveMultiple(record);
      if wi.Raise? {
        return Raise(wi.error);
      }
      if wi.value.Some? && wi.value.value != "" {
        var parentRecord := OclcSearch("wi", Text(wi.value.value), service);
        var parentStatus := ExtractResponse(parentRecord);
        if IsSingleWork(parentStatus) {
          var ids := ExtractIds(parentRecord);
          if ids.Raise? {
            return Raise(ids.error);
          } else if ids.value.None? {
            return Raise(TypeError);
          }
          row.fields := row.fields["ddc" := ids.value.value.0]["lcc" := ids.value.value.1];
          return Return(Some(row));
        } else {
          return Return(None);
        }
      }
    }
    return Return(None);
  }

  // ---------------------------------------------------------------------------
  // Properties of the resolution

  /** A non-empty ISBN is always the key; else a non-empty ISSN; author and title only when both are non-empty and neither identifier is. */
  lemma KeyPriority(fields: map<string, string>)
    requires HasSearchColumns(fields)
    ensures fields["isbn"] != "" ==> SearchKey(fields) == Some(("isbn", Text(fields["isbn"])))
    ensures fields["isbn"] == "" && fields["issn"] != "" ==> SearchKey(fields) == Some(("issn", Text(fields["issn"])))
    ensures SearchKey(fields).Some? && SearchKey(fields).value.0 == "bib" <==>
      fields["isbn"] == "" && fields["issn"] == "" && fields["author"] != "" && fields["title"] != ""
    ensures SearchKey(fields).None? <==>
      fields["isbn"] == "" && fields["issn"] == "" && (fields["author"] == "" || fields["title"] == "")
  {
  }

  /** The key chosen always forms a valid query: process_row never gets False from its own search. */
  lemma KeyFormsQuery(fields: map<string, string>)
    requires HasSearchColumns(fields)
    requires SearchKey(fields).Some?
    ensures QueryString(SearchKey(fields).value.0, SearchKey(fields).value.1).Some?
  {
  }

  /** Without a usable key there is no lookup and no change. */
  lemma NoKeyNoLookup(fields: map<string, string>, reply: string -> Reply)
    requires HasSearchColumns(fields)
    requires SearchKey(fields).None?
    ensures Resolve(fields, reply) == Outcome(Unresolved, [])
  {
  }

  /** The primary search: one request, built from the chosen key. */
  function PrimaryUrl(fields: map<string, string>): string
    requires HasSearchColumns(fields) && SearchKey(fields).Some?
  {
    KeyFormsQuery(fields);
    RequestUrl(QueryString(SearchKey(fields).value.0, SearchKey(fields).value.1).value)
  }

  /** The code of the primary answer, as extract_response reads it. */
  function PrimaryStatus(fields: map<string, string>, reply: string -> Reply): Option<int>
    requires HasSearchColumns(fields) && SearchKey(fields).Some?
  {
    ExtractResponse(SearchValue(SearchKey(fields).value.0, SearchKey(fields).value.1, reply))
  }

  /** An absent, unparsable or error (>= 100) primary answer leaves the row unresolved after one request. */
  lemma UnresolvedStatus(fields: map<string, string>, reply: string -> Reply)
    requires HasSearchColumns(fields) && SearchKey(fields).Some?
    requires PrimaryStatus(fields, reply).None? || PrimaryStatus(fields, reply).value >= 100
    ensures Resolve(fields, reply) == Outcome(Unresolved, [PrimaryUrl(fields)])
  {
  }

  /** A single-work primary answer (0 or 2) classifies the row with that answer's ddc and lcc, after one request. */
  lemma SingleWorkStatus(fields: map<string, string>, reply: string -> Reply)
    requires HasSearchColumns(fields) && SearchKey(fields).Some?
    requires IsSingleWork(PrimaryStatus(fields, reply))
    ensures reply(PrimaryUrl(fields)).Content? && reply(PrimaryUrl(fields)).body.Some?
    ensures var tree := reply(PrimaryUrl(fields)).body.value;
      Resolve(fields, reply) == Outcome(
        if tree.ddc.Some? && tree.lcc.Some? then Classified(tree.ddc.value, tree.lcc.value) else Raised(AttributeError),
        [PrimaryUrl(fields)])
  {
  }

  /** Codes below 100 other than 0, 2 and 4 (such as 1 or 3) leave the row unresolved after one request. */
  lemma OtherStatus(fields: map<string, string>, reply: string -> Reply)
    requires HasSearchColumns(fields) && SearchKey(fields).Some?
    requires PrimaryStatus(fields, reply).Some? && PrimaryStatus(fields, reply).value < 100
    requires !IsSingleWork(PrimaryStatus(fields, reply)) && PrimaryStatus(fields, reply) != Some(4)
    ensures Resolve(fields, reply) == Outcome(Unresolved, [PrimaryUrl(fields)])
  {
  }

  /**
   * A multi-work primary answer (4) whose first work has identifier wi leads to
   * a second request "wi=<wi>"; the row is classified only when that second
   * answer is a single work, and then with the second answer's ddc and lcc.
   */
  lemma MultiWorkStatus(fields: map<string, string>, reply: string -> Reply)
    requires HasSearchColumns(fields) && SearchKey(fields).Some?
    requires PrimaryStatus(fields, reply) == Some(4)
    ensures reply(PrimaryUrl(fields)).Content? && reply(PrimaryUrl(fields)).body.Some?
    ensures var works := reply(PrimaryUrl(fields)).body.value.works;
      works != [] && works[0] != "" ==>
        var secondary := SearchValue("wi", Text(works[0]), reply);
        var outcome := Resolve(fields, reply);
        && outcome.requests == [PrimaryUrl(fields), RequestUrl("wi=" + works[0])]
        && outcome.result == if IsSingleWork(ExtractResponse(secondary)) then Unpack(ExtractIds(secondary)) else Unresolved
    ensures var works := reply(PrimaryUrl(fields)).body.value.works;
      works == [] ==> Resolve(fields, reply) == Outcome(Raised(AttributeError), [PrimaryUrl(fields)])
    ensures var works := reply(PrimaryUrl(fields)).body.value.works;
      works != [] && works[0] == "" ==> Resolve(fields, reply) == Outcome(Unresolved, [PrimaryUrl(fields)])
  {
    var works := reply(PrimaryUrl(fields)).body.value.works;
    if works != [] {
      assert "wi" + "=" + works[0] == "wi=" + works[0];
    }
  }

  /** Whatever the path, classifiers come from the answer to the last request made, and that answer is a single work. */
  lemma ClassifiersFromLastAnswer(fields: map<string, string>, reply: string -> Reply)
    requires HasSearchColumns(fields)
    requires Resolve(fields, reply).result.Classified?
    ensures var outcome := Resolve(fields, reply);
      && 1 <= |outcome.requests| <= 2
      && var last := reply(outcome.requests[|outcome.requests| - 1]);
      && last.Content? && last.body.Some?
      && IsSingleWork(last.body.value.responseCode)
      && last.body.value.ddc == Some(outcome.result.ddc)
      && last.body.value.lcc == Some(outcome.result.lcc)
  {
  }

  /** Resolution only ever adds ddc and lcc: every other column keeps its value. */
  lemma OnlyClassifierColumnsChange(fields: map<string, string>, result: Resolution, column: string)
    requires column in fields && column != "ddc" && column != "lcc"
    ensures column in Apply(fields, result) && Apply(fields, result)[column] == fields[column]
  {
  }

  // ---------------------------------------------------------------------------
  // The driver loop

  /**
   * The loop of the main block: every row is processed in order and appended to
   * records_out whatever process_row returned, so records_out is the input rows,
   * in order. An exception in process_row ends the run at that row.
   */
  method ProcessAll(records: seq<Row>, service: LookupService) returns (recordsOut: seq<Row>, error: Option<PyError>)
    requires forall i, j :: 0 <= i < j < |records| ==> records[i] != records[j]
    requires forall i :: 0 <= i < |records| ==> HasSearchColumns(records[i].fields)
    modifies (set row | row in records), service
    ensures error.None? ==> recordsOut == records
    ensures error.Some? ==> |recordsOut| < |records| && recordsOut == records[..|recordsOut|]
    ensures error.Some? ==>
      Resolve(old(records[|recordsOut|].fields), service.reply).result == Raised(error.value)
    ensures forall i :: 0 <= i < |recordsOut| ==>
      records[i].fields == Apply(old(records[i].fields), Resolve(old(records[i].fields), service.reply).result)
    ensures forall i :: |recordsOut| <= i < |records| ==> records[i].fields == old(records[i].fields)
    ensures forall i :: 0 <= i < |recordsOut| ==> !Resolve(old(records[i].fields), service.reply).result.Raised?
  {
    ghost var reply := service.reply;
    recordsOut := [];
    error := None;
    var k := 0;
    while k < |records|
      invariant 0 <= k <= |records| && recordsOut == records[..k]
      invariant service.reply == reply
      invariant forall i :: 0 <= i < k ==>
        var result := Resolve(old(records[i].fields), reply).result;
        !result.Raised? && records[i].fields == Apply(old(records[i].fields), result)
      invariant forall i :: k <= i < |records| ==> records[i].fields == old(records[i].fields)
    {
      var row := records[k];
      var rowOut := ProcessRow(row, service);
      if rowOut.Raise? {
        return records[..k], Some(rowOut.error);
      }
      recordsOut := recordsOut + [row];
      k := k + 1;
    }
  }
}
