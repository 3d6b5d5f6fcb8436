/** Turning the hits of a search result set into the records the endpoint
    returns (`formatResults` and `formatBeanFromResult`). */
module ResultFormatter {
  import opened Php

  /** A formatted record: field name to value. */
  type Record = map<string, Value>

  /** The e-mail address helper object of a bean: its address list, whether
      it has been fetched, and its other properties. */
  datatype EmailAddress = EmailAddress(addresses: Value, hasFetched: bool, properties: map<string, Value>)

  /** A materialised record (a bean): its `email` property (Null when unset),
      its e-mail address helper (None when `empty`), and its other fields. */
  datatype Bean = Bean(fields: map<string, Value>, email: Value, emailAddress: Option<EmailAddress>)

  /** One hit of the engine's result set: its score (`getScore()`), its
      highlight map (`getHighlights()`), the fields its module advertises
      (`getDataFields()`) and its bean (`getBean()`). */
  datatype Hit = Hit(score: Value, highlights: map<string, Value>, dataFields: seq<string>, bean: Bean)

  /** The framework's `formatBean($api, ['fields' => $fields], $bean)`;
      None stands for an exception it throws. */
  type BeanFormatter = (seq<string>, Bean) -> Option<Record>

  /** Both halves of the e-mail quirk are there: a non-empty helper and a set
      `email` property. */
  predicate NeedsEmailFix(bean: Bean) {
    bean.emailAddress.Some? && bean.email != Null
  }

  /** The e-mail fix-up of `formatBeanFromResult`: the helper's address list
      becomes the bean's `email` and is marked as fetched; nothing else of
      the bean changes, and a bean without both halves is left as it is. */
  function FixEmail(bean: Bean): (fixed: Bean)
    ensures NeedsEmailFix(bean) ==>
      fixed.emailAddress.Some? &&
      fixed.emailAddress.value.addresses == bean.email &&
      fixed.emailAddress.value.hasFetched &&
      fixed.emailAddress.value.properties == bean.emailAddress.value.properties
    ensures fixed.(emailAddress := bean.emailAddress) == bean
    ensures !NeedsEmailFix(bean) ==> fixed == bean
  {
    if NeedsEmailFix(bean) then
      bean.(emailAddress := Some(bean.emailAddress.value.(addresses := bean.email, hasFetched := true)))
    else
      bean
  }

  /** Applying the fix-up a second time changes nothing. */
  lemma FixEmailIdempotent(bean: Bean)
    ensures FixEmail(FixEmail(bean)) == FixEmail(bean)
  {
  }

  /** `formatBeanFromResult`: the hit's bean, after the e-mail fix-up, is
      formatted with the hit's own data fields; the request arguments the
      caller passes in are not used. */
  function FormatBeanFromResult(hit: Hit, formatBean: BeanFormatter): (r: Option<Record>)
    ensures !NeedsEmailFix(hit.bean) ==> r == formatBean(hit.dataFields, hit.bean)
  {
    formatBean(hit.dataFields, FixEmail(hit.bean))
  }

  /** What `formatResults` adds to the formatted data of one hit: `_score`
      when the score is truthy, then `_highlights` when the hit's highlight
      map is non-empty, keeping only the highlighted fields that are `isset`
      in the data at that point (which includes a `_score` just added). */
  function Decorate(data: Record, score: Value, highlights: map<string, Value>): (r: Record)
    ensures Truthy(score) ==> "_score" in r && r["_score"] == score
    ensures !Truthy(score) ==> ("_score" in r <==> "_score" in data)
    ensures !Truthy(score) && "_score" in data ==> r["_score"] == data["_score"]
    ensures highlights == map[] ==> ("_highlights" in r <==> "_highlights" in data)
    ensures highlights == map[] && "_highlights" in data ==> r["_highlights"] == data["_highlights"]
    ensures highlights != map[] ==> "_highlights" in r && r["_highlights"].Dict?
    ensures highlights != map[] ==> forall f :: f in r["_highlights"].entries <==>
      f in highlights && (Isset(data, f) || (f == "_score" && Truthy(score)))
    ensures highlights != map[] ==> forall f :: f in r["_highlights"].entries ==>
      r["_highlights"].entries[f] == highlights[f]
    ensures forall k :: k in data && k != "_score" && k != "_highlights" ==> k in r && r[k] == data[k]
    ensures forall k :: k in r ==> k in data || k == "_score" || k == "_highlights"
  {
    var scored := if Truthy(score) then data["_score" := score] else data;
    if highlights == map[] then scored
    else scored["_highlights" := Dict(map f | f in highlights && Isset(scored, f) :: highlights[f])]
  }

  /** A non-empty highlight map none of whose fields is set in the data still
      yields a `_highlights` key, holding an empty map. */
  lemma HighlightsOfUnsetFieldsAreEmpty(data: Record, score: Value, highlights: map<string, Value>)
    requires highlights != map[] && "_score" !in highlights
    requires forall f :: f in highlights ==> !Isset(data, f)
    ensures "_highlights" in Decorate(data, score, highlights)
    ensures Decorate(data, score, highlights)["_highlights"] == Dict(map[])
  {
    var h := Decorate(data, score, highlights)["_highlights"].entries;
    assert forall f :: f !in h;
  }

  /** Two hits of a search for "acme": the first, scored and with a
      highlight on a field the record has, gets both keys; the second, with
      an empty highlight map, gets only its score. */
  lemma DecorateAcmeHits()
    ensures Decorate(map["name" := Str("Acme Corp")], Float(0.9), map["name" := Str("<em>Acme</em> Corp")])
      == map["name" := Str("Acme Corp"), "_score" := Float(0.9),
              "_highlights" := Dict(map["name" := Str("<em>Acme</em> Corp")])]
    ensures Decorate(map["name" := Str("Acme Ltd")], Float(0.7), map[])
      == map["name" := Str("Acme Ltd"), "_score" := Float(0.7)]
  {
    var highlights := map["name" := Str("<em>Acme</em> Corp")];
    var scored := map["name" := Str("Acme Corp"), "_score" := Float(0.9)];
    assert (map f | f in highlights && Isset(scored, f) :: highlights[f]) == highlights;
  }

  /** The bean formatting of a hit depends on its data fields and its bean
      only: neither its score, its highlights nor the request arguments
      reach the formatter. */
  lemma FormatBeanOwnFields(hit: Hit, other: Hit, formatBean: BeanFormatter)
    requires hit.dataFields == other.dataFields && hit.bean == other.bean
    ensures FormatBeanFromResult(hit, formatBean) == FormatBeanFromResult(other, formatBean)
  {
  }

  /** One iteration of the `formatResults` loop: None when formatting the
      bean throws; otherwise the formatted bean keeps its own fields, gains
      `_score` when the score is truthy and `_highlights` when the hit has
      highlights. */
  function FormatHit(hit: Hit, formatBean: BeanFormatter): (r: Option<Record>)
    ensures r.Some? <==> FormatBeanFromResult(hit, formatBean).Some?
    ensures r.Some? ==> forall k ::
      (k in FormatBeanFromResult(hit, formatBean).value && k != "_score" && k != "_highlights") ==>
      k in r.value && r.value[k] == FormatBeanFromResult(hit, formatBean).value[k]
    ensures r.Some? && Truthy(hit.score) ==> "_score" in r.value && r.value["_score"] == hit.score
    ensures r.Some? && hit.highlights != map[] ==> "_highlights" in r.value
  {
    match FormatBeanFromResult(hit, formatBean)
    case None => None
    case Some(data) => Some(Decorate(data, hit.score, hit.highlights))
  }

  /** The inner loop of `formatResults`: every highlighted field that is
      not `isset` in the data is unset from the highlight map. */
  method FilterHighlights(highlights: map<string, Value>, data: Record) returns (kept: map<string, Value>)
    ensures kept.Keys <= highlights.Keys
    ensures forall f :: f in kept <==> f in highlights && Isset(data, f)
    ensures forall f :: f in kept ==> kept[f] == highlights[f]
  {
    kept := highlights;
    var pending := highlights.Keys;
    while pending != {}
      invariant pending <= highlights.Keys
      invariant kept == map f | f in highlights && (f in pending || Isset(data, f)) :: highlights[f]
      decreases pending
    {
      var field :| field in pending;
      if !Isset(data, field) {
        kept := kept - {field};
      }
      pending := pending - {field};
    }
  }

  /** `formatResults`: one record per hit, in hit order; an exception while
      formatting any hit abandons the whole list (None). */
  method FormatResults(hits: seq<Hit>, formatBean: BeanFormatter) returns (formatted: Option<seq<Record>>)
    ensures formatted.Some? <==> forall i :: 0 <= i < |hits| ==> FormatHit(hits[i], formatBean).Some?
    ensures formatted.Some? ==> |formatted.value| == |hits|
    ensures formatted.Some? ==>
      forall i :: 0 <= i < |hits| ==> FormatHit(hits[i], formatBean) == Some(formatted.value[i])
  {
    var records: seq<Record> := [];
    for n := 0 to |hits|
      invariant |records| == n
      invariant forall i :: 0 <= i < n ==> FormatHit(hits[i], formatBean) == Some(records[i])
    {
      var hit := hits[n];
      var materialised := FormatBeanFromResult(hit, formatBean);
      if materialised.None? {
        return None;
      }
      var data := materialised.value;
      ghost var decorated := Decorate(data, hit.score, hit.highlights);
      if Truthy(hit.score) {
        data := data["_score" := hit.score];
      }
      if hit.highlights != map[] {
        var highlights := FilterHighlights(hit.highlights, data);
        assert highlights == map f | f in hit.highlights && Isset(data, f) :: hit.highlights[f];
        data := data["_highlights" := Dict(highlights)];
      }
      assert data == decorated;
      records := records + [data];
    }
    formatted := Some(records);
  }
}
