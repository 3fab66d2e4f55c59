/**
  The span array of a submission and the tag injection applied to it.

  Go decodes the body into a slice of `map[string]interface{}`: a JSON
  `null` element becomes a nil map, which `Span.Nil` stands for.
 */
module Spans {
  import opened Wrappers
  import opened Json

  datatype Span = Nil | Fields(fields: map<string, Json>)

  /** The span member holding the tags. */
  const TagsKey: string := "tags"

  /** One array element as Go decodes it into a map: an object, or `null` as a nil map. */
  function DecodeSpan(j: Json): (r: Option<Span>)
    ensures r.Some? <==> j.JObject? || j.JNull?
  {
    match j
    case JObject(fields) => Some(Fields(fields))
    case JNull => Some(Nil)
    case _ => None
  }

  function EncodeSpan(s: Span): Json
  {
    match s
    case Nil => JNull
    case Fields(fields) => JObject(fields)
  }

  function EncodeSpans(spans: seq<Span>): (j: Json)
    ensures j.JArray? && |j.items| == |spans|
    ensures forall i :: 0 <= i < |spans| ==> j.items[i] == EncodeSpan(spans[i])
  {
    JArray(seq(|spans|, i requires 0 <= i < |spans| => EncodeSpan(spans[i])))
  }

  /** The elements of an array; one element that is neither object nor null fails it all. */
  function DecodeItems(items: seq<Json>): (r: Option<seq<Span>>)
    ensures r.Some? ==> |r.value| == |items|
    ensures r.Some? ==> forall i :: 0 <= i < |items| ==> EncodeSpan(r.value[i]) == items[i]
    ensures r.None? <==> exists i :: 0 <= i < |items| && DecodeSpan(items[i]).None?
  {
    if |items| == 0 then Some([])
    else
      match DecodeSpan(items[0])
      case None => None
      case Some(s) =>
        match DecodeItems(items[1..])
        case None =>
          var i :| 0 <= i < |items[1..]| && DecodeSpan(items[1..][i]).None?;
          assert DecodeSpan(items[i + 1]).None?;
          None
        case Some(rest) =>
          assert forall i :: 1 <= i < |items| ==> items[i] == items[1..][i - 1];
          Some([s] + rest)
  }

  /**
    Unmarshalling into `[]map[string]interface{}`: a top-level `null`
    leaves the slice nil (no spans); anything but an array of objects
    and nulls is an error.
   */
  function DecodeSpans(j: Json): (r: Option<seq<Span>>)
    ensures j.JNull? ==> r == Some([])
    ensures !j.JNull? && !j.JArray? ==> r.None?
    ensures j.JArray? ==> (r.None? <==> exists i :: 0 <= i < |j.items| && DecodeSpan(j.items[i]).None?)
    ensures j.JArray? && r.Some? ==> EncodeSpans(r.value) == j
  {
    match j
    case JNull => Some([])
    case JArray(items) => DecodeItems(items)
    case _ => None
  }

  /** Decoding what was encoded gives back the spans. */
  lemma DecodeEncodeSpans(spans: seq<Span>)
    ensures DecodeSpans(EncodeSpans(spans)) == Some(spans)
  {
    var j := EncodeSpans(spans);
    forall i | 0 <= i < |j.items| ensures DecodeSpan(j.items[i]).Some? {
      assert j.items[i] == EncodeSpan(spans[i]);
    }
    var r := DecodeSpans(j).value;
    forall i | 0 <= i < |spans| ensures r[i] == spans[i] {
      assert EncodeSpan(r[i]) == EncodeSpan(spans[i]);
    }
    assert r == spans;
  }

  /**
    An existing tag value counts as set unless it is exactly the empty
    string: `null`, numbers and objects are all "set".
   */
  predicate IsSet(v: Json)
  {
    v != JString("")
  }

  /** Some staged tag is missing from `tags` or holds the empty string. */
  predicate NeedsFill(tags: map<string, Json>, staged: map<string, string>)
  {
    exists t :: t in staged && (t !in tags || !IsSet(tags[t]))
  }

  /** `tags` with every staged tag that is missing or empty set to its staged value. */
  function FillTags(tags: map<string, Json>, staged: map<string, string>): (r: map<string, Json>)
    ensures r.Keys == tags.Keys + staged.Keys
    ensures forall k :: k in tags && IsSet(tags[k]) ==> r[k] == tags[k]
    ensures forall k :: k in tags && k !in staged ==> r[k] == tags[k]
    ensures forall t :: t in staged && (t !in tags || !IsSet(tags[t])) ==> r[t] == JString(staged[t])
  {
    tags + map t | t in staged && (t !in tags || !IsSet(tags[t])) :: JString(staged[t])
  }

  datatype SpanRewrite = SpanRewrite(span: Span, modified: bool)

  /**
    One iteration of the span loop. A span without tags receives the
    staged object; an object `tags` is filled; any other `tags` value is
    left alone. No member other than `tags` is touched.
   */
  function RewriteSpan(s: Span, staged: map<string, string>): (r: SpanRewrite)
    ensures r.span.Nil? <==> s.Nil?
    ensures s.Nil? ==> !r.modified
    ensures r.span.Fields? ==> r.span.fields - {TagsKey} == s.fields - {TagsKey} && TagsKey in r.span.fields
    ensures s.Fields? && TagsKey !in s.fields ==> r.modified && r.span.fields[TagsKey] == StringObject(staged)
    ensures s.Fields? && TagsKey in s.fields && !s.fields[TagsKey].JObject? ==> r == SpanRewrite(s, false)
    ensures s.Fields? && TagsKey in s.fields && s.fields[TagsKey].JObject? ==>
      && r.span.fields[TagsKey] == JObject(FillTags(s.fields[TagsKey].fields, staged))
      && (r.modified <==> NeedsFill(s.fields[TagsKey].fields, staged))
  {
    match s
    case Nil => SpanRewrite(Nil, false)
    case Fields(fields) =>
      if TagsKey !in fields then
        SpanRewrite(Fields(fields[TagsKey := StringObject(staged)]), true)
      else
        match fields[TagsKey]
        case JObject(tags) =>
          SpanRewrite(Fields(fields[TagsKey := JObject(FillTags(tags, staged))]), NeedsFill(tags, staged))
        case _ => SpanRewrite(s, false)
  }

  /** Every staged value is non-empty, as the staging step guarantees. */
  predicate NonEmptyValues(staged: map<string, string>)
  {
    forall t :: t in staged ==> staged[t] != ""
  }

  /** Caller-supplied tags win: a tag value that is set survives the rewrite. */
  lemma ExistingTagsKept(s: Span, staged: map<string, string>, tag: string)
    requires s.Fields? && TagsKey in s.fields && s.fields[TagsKey].JObject?
    requires tag in s.fields[TagsKey].fields && IsSet(s.fields[TagsKey].fields[tag])
    ensures RewriteSpan(s, staged).span.fields[TagsKey].fields[tag] == s.fields[TagsKey].fields[tag]
  {
  }

  /**
    The object a span without tags receives already holds every staged
    tag with its staged value, so filling it changes nothing.
   */
  lemma StagedObjectFilled(staged: map<string, string>)
    requires NonEmptyValues(staged)
    ensures StringObject(staged).fields.Keys == staged.Keys
    ensures forall t :: t in staged ==> StringObject(staged).fields[t] == JString(staged[t])
    ensures !NeedsFill(StringObject(staged).fields, staged)
    ensures FillTags(StringObject(staged).fields, staged) == StringObject(staged).fields
  {
  }

  /**
    A filled tag object needs no further filling, also with another
    staging of the same tags (the values may differ when labels collide).
   */
  lemma FillTagsIdempotent(tags: map<string, Json>, staged: map<string, string>, again: map<string, string>)
    requires NonEmptyValues(staged) && again.Keys == staged.Keys
    ensures !NeedsFill(FillTags(tags, staged), again)
    ensures FillTags(FillTags(tags, staged), again) == FillTags(tags, staged)
  {
  }

  /** With non-empty staged values, the fill reports a change exactly when it makes one. */
  lemma FillModifiedIffChanged(tags: map<string, Json>, staged: map<string, string>)
    requires NonEmptyValues(staged)
    ensures NeedsFill(tags, staged) <==> FillTags(tags, staged) != tags
  {
  }

  /**
    A second pass over a rewritten span, with the same tags staged,
    changes nothing and reports no change.
   */
  lemma RewriteSpanIdempotent(s: Span, staged: map<string, string>, again: map<string, string>)
    requires NonEmptyValues(staged) && again.Keys == staged.Keys
    ensures RewriteSpan(RewriteSpan(s, staged).span, again) == SpanRewrite(RewriteSpan(s, staged).span, false)
  {
    var s1 := RewriteSpan(s, staged).span;
    if s.Fields? {
      if TagsKey !in s.fields {
        var tags := StringObject(staged).fields;
        StagedObjectFilled(staged);
        FillTagsIdempotent(tags, staged, again);
        assert s1.fields[TagsKey := JObject(tags)] == s1.fields;
      } else if s.fields[TagsKey].JObject? {
        var tags := FillTags(s.fields[TagsKey].fields, staged);
        FillTagsIdempotent(s.fields[TagsKey].fields, staged, again);
        assert s1.fields[TagsKey := JObject(tags)] == s1.fields;
      }
    }
  }

  /** With staged tags to add, a span is reported modified exactly when it changed. */
  lemma RewriteSpanModifiedIffChanged(s: Span, staged: map<string, string>)
    requires |staged| > 0 && NonEmptyValues(staged)
    ensures RewriteSpan(s, staged).modified <==> RewriteSpan(s, staged).span != s
  {
    var r := RewriteSpan(s, staged);
    if s.Fields? && TagsKey in s.fields && s.fields[TagsKey].JObject? {
      var tags := s.fields[TagsKey].fields;
      FillModifiedIffChanged(tags, staged);
      if !NeedsFill(tags, staged) {
        assert s.fields[TagsKey := JObject(tags)] == s.fields;
      } else {
        assert r.span.fields[TagsKey] != s.fields[TagsKey];
      }
    }
  }

  datatype Rewrite = Rewrite(spans: seq<Span>, modified: bool)

  /** The span loop: every span is rewritten, and one modified span marks the whole body. */
  function RewriteSpans(spans: seq<Span>, staged: map<string, string>): (r: Rewrite)
    ensures |r.spans| == |spans|
    ensures forall i :: 0 <= i < |spans| ==> r.spans[i] == RewriteSpan(spans[i], staged).span
    ensures r.modified <==> exists i :: 0 <= i < |spans| && RewriteSpan(spans[i], staged).modified
  {
    if |spans| == 0 then Rewrite([], false)
    else
      var head := RewriteSpan(spans[0], staged);
      var tail := RewriteSpans(spans[1..], staged);
      assert forall i :: 1 <= i < |spans| ==> spans[i] == spans[1..][i - 1];
      Rewrite([head.span] + tail.spans, head.modified || tail.modified)
  }

  /**
    The span loop is idempotent: applied to its own output, with the same
    tags staged, it changes nothing.
   */
  lemma RewriteSpansIdempotent(spans: seq<Span>, staged: map<string, string>, again: map<string, string>)
    requires NonEmptyValues(staged) && again.Keys == staged.Keys
    ensures RewriteSpans(RewriteSpans(spans, staged).spans, again) == Rewrite(RewriteSpans(spans, staged).spans, false)
  {
    var once := RewriteSpans(spans, staged).spans;
    var twice := RewriteSpans(once, again);
    forall i | 0 <= i < |spans| ensures twice.spans[i] == once[i] && !RewriteSpan(once[i], again).modified {
      RewriteSpanIdempotent(spans[i], staged, again);
    }
  }

  /** Whether the loop modifies the body depends on which tags are staged, not on their values. */
  lemma ModifiedDependsOnTagsOnly(spans: seq<Span>, staged: map<string, string>, again: map<string, string>)
    requires again.Keys == staged.Keys
    ensures RewriteSpans(spans, staged).modified == RewriteSpans(spans, again).modified
  {
  }

  /** With staged tags to add, the body is reported modified exactly when some span changed. */
  lemma RewriteSpansModifiedIffChanged(spans: seq<Span>, staged: map<string, string>)
    requires |staged| > 0 && NonEmptyValues(staged)
    ensures RewriteSpans(spans, staged).modified <==> RewriteSpans(spans, staged).spans != spans
  {
    var r := RewriteSpans(spans, staged);
    forall i | 0 <= i < |spans| ensures RewriteSpan(spans[i], staged).modified <==> r.spans[i] != spans[i] {
      RewriteSpanModifiedIffChanged(spans[i], staged);
    }
    if r.modified {
      var i :| 0 <= i < |spans| && RewriteSpan(spans[i], staged).modified;
      assert r.spans[i] != spans[i];
    }
  }

  /**
    The span loop as written: assigning `tags` into the nil map of a
    `null` element panics, shown as `None`.
   */
  function RewriteSpansAsWritten(spans: seq<Span>, staged: map<string, string>): (r: Option<Rewrite>)
    ensures r.None? <==> Nil in spans
    ensures r.Some? ==> r.value == RewriteSpans(spans, staged)
  {
    if |spans| == 0 then Some(Rewrite([], false))
    else if spans[0].Nil? then None
    else
      var head := RewriteSpan(spans[0], staged);
      assert forall s :: s in spans <==> s == spans[0] || s in spans[1..];
      match RewriteSpansAsWritten(spans[1..], staged)
      case None => None
      case Some(tail) => Some(Rewrite([head.span] + tail.spans, head.modified || tail.modified))
  }

  /**
    The body `[null]` decodes without error to one nil span, and the loop
    as written panics on it, while the corrected loop leaves it alone.
   */
  lemma NullElementPanics(staged: map<string, string>)
    ensures DecodeSpans(JArray([JNull])) == Some([Nil])
    ensures RewriteSpansAsWritten([Nil], staged).None?
    ensures RewriteSpans([Nil], staged) == Rewrite([Nil], false)
  {
    var r := DecodeSpans(JArray([JNull])).value;
    assert EncodeSpan(r[0]) == JNull;
    assert r == [Nil];
  }
}
