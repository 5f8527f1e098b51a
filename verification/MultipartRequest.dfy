/** A multipart request from its Content-Type and its body in any split to the fields the WAF sees. */
module MultipartRequest {
  import opened Basics
  import opened Octets
  import opened ChainStream
  import opened Fields
  import opened Multipart
  import opened MultipartRoundTrip
  import opened ContentType

  /** The multipart branch of parse_body_req. The parser's one demand on the boundary is met by every
      header that parses. */
  method ParseRequest(header: Text, links: seq<Text>) returns (r: Option<map<Text, Field>>)
    requires Readable(links)
    ensures MediaType(header).None? ==> r == None
    ensures MediaType(header).Some? ==> IsResult(AllParts(MediaType(header).value.boundary, Joined(links)), r)
  {
    var ct := ForString(header);
    if ct.None? {
      return None;
    }
    ParsedBoundaryIsOneLine(header);
    r := ParseMultipart(ct.value.boundary, links);
  }

  /** Sending parts and parsing what arrives, however the header is spelled and the body split into links, gives each
      name its contents in order and no other name. */
  lemma RequestRoundTrip(sp: Spelling, pre: Text, fr: Frame, sent: seq<Sending>, links: seq<Text>,
                         r: Option<map<Text, Field>>)
    requires WellSpelled(sp) && IsFrame(fr) && IsPreamble(BoundaryOf(sp), pre) && Sendable(BoundaryOf(sp), sent)
    requires Readable(links) && Joined(links) == pre + Rendered(fr, BoundaryOf(sp), sent)
    requires var ct := MediaType(Spelled(sp));
             ct.Some? ==> IsResult(AllParts(ct.value.boundary, Joined(links)), r)
    ensures r.None? <==> PartsOf(sent) == []
    ensures r.Some? ==> forall name ::
              name in r.value <==> exists i :: 0 <= i < |PartsOf(sent)| && PartsOf(sent)[i].name == name
    ensures r.Some? ==> forall name :: name in r.value ==>
              var values := Values(PartsOf(sent), name);
              r.value[name] == if |values| == 1 then One(values[0]) else Many(values)
  {
    var parts := PartsOf(sent);
    HeaderRoundTrip(sp);
    RoundTrip(pre, fr, BoundaryOf(sp), sent);
    if r.Some? {
      forall name ensures name in r.value <==> exists i :: 0 <= i < |parts| && parts[i].name == name {
        ValuesOfNames(parts, name);
      }
    }
  }
}
