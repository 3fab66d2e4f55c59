/**
  The director: the hook the reverse proxy runs on every request before
  forwarding it. It points the request at the local collector and, for a
  span submission from a pod it can identify, injects the tags staged
  from that pod's labels into the submitted spans.
 */
module Director {
  import opened Wrappers
  import opened Json
  import opened HostPort
  import opened Pods
  import opened Staging
  import opened Spans
  import opened Configuration

  const TargetScheme: string := "http"
  const TargetHost: string := "127.0.0.1:9410"
  const SubmitMethod: string := "POST"
  const SpansPath: string := "/api/v2/spans"

  /** A request body stream: reading it yields these bytes, or fails (`None`). */
  datatype Body = Body(read: Option<Bytes>)

  /** The parts of an HTTP request the director reads or writes; a nil body is `None`. */
  datatype Request = Request(
    verb: string,
    scheme: string,
    host: string,
    path: string,
    remoteAddr: string,
    body: Option<Body>,
    contentLength: int)

  /** The request pointed at the collector, with nothing else changed. */
  function Retarget(req: Request): (r: Request)
    ensures r.scheme == TargetScheme && r.host == TargetHost
  {
    req.(scheme := TargetScheme, host := TargetHost)
  }

  /** Only a POST to exactly the span-submission path is inspected. */
  predicate Inspected(req: Request)
  {
    req.verb == SubmitMethod && req.path == SpansPath
  }

  /** The labels a mapping names; a nil mapping names none. */
  function MappingEntries(mapping: Option<map<string, string>>): map<string, string>
  {
    if mapping.Some? then mapping.value else map[]
  }

  /**
    `out` is the serialisation of the spans decoded from `bytes`, after a
    rewrite with `staged` that modified at least one of them.
   */
  predicate IsRewriteOf(codec: Codec, bytes: Bytes, staged: map<string, string>, out: Bytes)
  {
    && codec.unmarshal(bytes).Some?
    && DecodeSpans(codec.unmarshal(bytes).value).Some?
    && var rewrite := RewriteSpans(DecodeSpans(codec.unmarshal(bytes).value).value, staged);
    && rewrite.modified
    && codec.marshal(EncodeSpans(rewrite.spans)) == Some(out)
  }

  /** `bytes` decode to a span array holding a nil span. */
  predicate HoldsNilSpan(codec: Codec, bytes: Bytes)
  {
    && codec.unmarshal(bytes).Some?
    && DecodeSpans(codec.unmarshal(bytes).value).Some?
    && Nil in DecodeSpans(codec.unmarshal(bytes).value).value
  }

  /** `bytes` decode to spans, the rewrite modifies some of them, and its result does not serialise. */
  predicate SerialiseFails(codec: Codec, bytes: Bytes, staged: map<string, string>)
  {
    && codec.unmarshal(bytes).Some?
    && DecodeSpans(codec.unmarshal(bytes).value).Some?
    && var rewrite := RewriteSpans(DecodeSpans(codec.unmarshal(bytes).value).value, staged);
    && rewrite.modified
    && codec.marshal(EncodeSpans(rewrite.spans)).None?
  }

  /**
    The body after the span rewrite, with every failure restoring the
    bytes read: they are replaced only when they decode to a span array,
    some span was modified and the result serialises. A nil span is
    skipped (see `Spans.RewriteSpans`).
   */
  function RewriteBody(bytes: Bytes, staged: map<string, string>, codec: Codec): (final: Bytes)
    ensures final == bytes || IsRewriteOf(codec, bytes, staged, final)
    ensures forall out :: IsRewriteOf(codec, bytes, staged, out) ==> final == out
    ensures codec.unmarshal(bytes).None? ==> final == bytes
    ensures codec.unmarshal(bytes).Some? && DecodeSpans(codec.unmarshal(bytes).value).None? ==> final == bytes
    ensures SerialiseFails(codec, bytes, staged) ==> final == bytes
  {
    match codec.unmarshal(bytes)
    case None => bytes
    case Some(j) =>
      match DecodeSpans(j)
      case None => bytes
      case Some(spans) =>
        var rewrite := RewriteSpans(spans, staged);
        if !rewrite.modified then bytes
        else
          match codec.marshal(EncodeSpans(rewrite.spans))
          case None => bytes
          case Some(out) => out
  }

  /**
    The body rewrite as the code performs it; `None` is the panic of the
    span loop on a nil span. When serialisation fails, `json.Marshal` has
    already set the captured `bodyBytes` to nil, so the deferred restore
    forwards an empty body.
   */
  function RewriteBodyAsWritten(bytes: Bytes, staged: map<string, string>, codec: Codec): (r: Option<Bytes>)
    ensures r.None? <==> HoldsNilSpan(codec, bytes)
    ensures r.Some? && !SerialiseFails(codec, bytes, staged) ==> r.value == RewriteBody(bytes, staged, codec)
    ensures r.Some? && SerialiseFails(codec, bytes, staged) ==> r.value == []
  {
    match codec.unmarshal(bytes)
    case None => Some(bytes)
    case Some(j) =>
      match DecodeSpans(j)
      case None => Some(bytes)
      case Some(spans) =>
        match RewriteSpansAsWritten(spans, staged)
        case None => None
        case Some(rewrite) =>
          if !rewrite.modified then Some(bytes)
          else
            match codec.marshal(EncodeSpans(rewrite.spans))
            case None => Some([])
            case Some(out) => Some(out)
  }

  /**
    The body `[{}]` under a codec that cannot serialise: the code as
    written forwards an empty body, while the restore its comment
    promises forwards the bytes read.
   */
  lemma SerialiseFailureEmptiesBody()
    ensures var codec := Codec(b => Some(JArray([JObject(map[])])), j => None);
      var bytes: Bytes := [91, 123, 125, 93];
      var staged := map["owner" := "from_label"];
      && SerialiseFails(codec, bytes, staged)
      && RewriteBodyAsWritten(bytes, staged, codec) == Some([])
      && RewriteBody(bytes, staged, codec) == bytes
  {
  }

  /** The bytes read and the tags staged, once the director gets as far as reading the body. */
  datatype Reached = Reached(bytes: Bytes, staged: map<string, string>)

  /**
    The director's early returns: only a POST to the span path, from a
    pod that resolves, with some tag staged and a body that reads, gets
    to the rewrite.
   */
  function Reach(store: seq<Pod>, cfg: Config, order: seq<string>, req: Request): (r: Option<Reached>)
    requires IsIterationOrder(order, MappingEntries(cfg.labelTagMapping))
    ensures r.Some? ==> Inspected(req) && req.body == Some(Body(Some(r.value.bytes))) && |r.value.staged| > 0
  {
    if !Inspected(req) then None
    else
      match RequesterPod(store, req.remoteAddr)
      case Failure(_) => None
      case Success(pod) =>
        var staged := Stage(MappingEntries(cfg.labelTagMapping), pod.labels, order);
        if |staged| == 0 then None
        else if req.body.None? || req.body.value.read.None? then None
        else Some(Reached(req.body.value.read.value, staged))
  }

  /** The request after the director has run, with the corrected body rewrite. */
  function Direct(store: seq<Pod>, cfg: Config, order: seq<string>, codec: Codec, req: Request): (r: Request)
    requires IsIterationOrder(order, MappingEntries(cfg.labelTagMapping))
    ensures r.scheme == TargetScheme && r.host == TargetHost
    ensures r.verb == req.verb && r.path == req.path && r.remoteAddr == req.remoteAddr
    ensures !Inspected(req) ==> r == Retarget(req)
    ensures r != Retarget(req) ==>
      && Inspected(req)
      && req.body.Some? && req.body.value.read.Some?
      && r.body.Some? && r.body.value.read.Some?
      && r == Retarget(req).(body := r.body, contentLength := |r.body.value.read.value|)
  {
    match Reach(store, cfg, order, req)
    case None => Retarget(req)
    case Some(reached) =>
      var final := RewriteBody(reached.bytes, reached.staged, codec);
      Retarget(req).(body := Some(Body(Some(final))), contentLength := |final|)
  }

  /**
    The director as the code is written; `None` is a panic. It panics
    exactly when a nil span reaches the span loop, forwards an empty body
    when the rewrite does not serialise, and otherwise does what
    `Direct` does.
   */
  function DirectAsWritten(store: seq<Pod>, cfg: Config, order: seq<string>, codec: Codec, req: Request)
    : (r: Option<Request>)
    requires IsIterationOrder(order, MappingEntries(cfg.labelTagMapping))
    ensures var reached := Reach(store, cfg, order, req);
      r.None? <==> reached.Some? && HoldsNilSpan(codec, reached.value.bytes)
    ensures var reached := Reach(store, cfg, order, req);
      r.Some? && !(reached.Some? && SerialiseFails(codec, reached.value.bytes, reached.value.staged)) ==>
        r == Some(Direct(store, cfg, order, codec, req))
    ensures var reached := Reach(store, cfg, order, req);
      r.Some? && reached.Some? && SerialiseFails(codec, reached.value.bytes, reached.value.staged) ==>
        r == Some(Retarget(req).(body := Some(Body(Some([]))), contentLength := 0))
  {
    match Reach(store, cfg, order, req)
    case None => Some(Retarget(req))
    case Some(reached) =>
      match RewriteBodyAsWritten(reached.bytes, reached.staged, codec)
      case None => None
      case Some(final) => Some(Retarget(req).(body := Some(Body(Some(final))), contentLength := |final|))
  }

  /** A request whose sender cannot be resolved to exactly one pod passes through. */
  lemma UnresolvedPassesThrough(store: seq<Pod>, cfg: Config, order: seq<string>, codec: Codec, req: Request)
    requires IsIterationOrder(order, MappingEntries(cfg.labelTagMapping))
    requires RequesterPod(store, req.remoteAddr).Failure?
    ensures Direct(store, cfg, order, codec, req) == Retarget(req)
  {
  }

  /**
    When the pod carries none of the mapped labels, nothing is staged and
    the body is neither read nor changed.
   */
  lemma NothingStagedPassesThrough(store: seq<Pod>, cfg: Config, order: seq<string>, codec: Codec, req: Request)
    requires IsIterationOrder(order, MappingEntries(cfg.labelTagMapping))
    requires RequesterPod(store, req.remoteAddr).Success?
    requires forall l :: l in MappingEntries(cfg.labelTagMapping) ==>
      LabelValue(RequesterPod(store, req.remoteAddr).value.labels, l) == ""
    ensures Direct(store, cfg, order, codec, req) == Retarget(req)
  {
  }

  /**
    Once the body has been read, it is replaced by the rewritten bytes
    and the content length always matches them.
   */
  lemma ReadBodyIsReplaced(store: seq<Pod>, cfg: Config, order: seq<string>, codec: Codec, req: Request)
    requires IsIterationOrder(order, MappingEntries(cfg.labelTagMapping))
    requires Inspected(req) && RequesterPod(store, req.remoteAddr).Success?
    requires |Stage(MappingEntries(cfg.labelTagMapping), RequesterPod(store, req.remoteAddr).value.labels, order)| > 0
    requires req.body.Some? && req.body.value.read.Some?
    ensures var staged := Stage(MappingEntries(cfg.labelTagMapping), RequesterPod(store, req.remoteAddr).value.labels, order);
      var final := RewriteBody(req.body.value.read.value, staged, codec);
      Direct(store, cfg, order, codec, req) == Retarget(req).(body := Some(Body(Some(final))), contentLength := |final|)
  {
  }

  /** With staged tags to add, the body bytes change only when some span changed. */
  lemma BodyChangesOnlyWithSpans(bytes: Bytes, staged: map<string, string>, codec: Codec)
    requires |staged| > 0 && NonEmptyValues(staged)
    requires RewriteBody(bytes, staged, codec) != bytes
    ensures codec.unmarshal(bytes).Some? && DecodeSpans(codec.unmarshal(bytes).value).Some?
    ensures var spans := DecodeSpans(codec.unmarshal(bytes).value).value;
      RewriteSpans(spans, staged).spans != spans
  {
  }

  /** A body that is `[]`, or JSON that is not an array, comes out byte for byte. */
  lemma NoSpansKeepsBytes(bytes: Bytes, staged: map<string, string>, codec: Codec)
    requires codec.unmarshal(bytes) == Some(JArray([])) ||
             (codec.unmarshal(bytes).Some? && !codec.unmarshal(bytes).value.JArray? && !codec.unmarshal(bytes).value.JNull?)
    ensures RewriteBody(bytes, staged, codec) == bytes
  {
  }

  /**
    Rewriting a body the rewrite produced gives back the same bytes, also
    when the second pass stages other values for the same tags.
   */
  lemma RewriteBodyIdempotent(bytes: Bytes, staged: map<string, string>, again: map<string, string>, codec: Codec)
    requires RoundTrips(codec) && NonEmptyValues(staged) && again.Keys == staged.Keys
    ensures RewriteBody(RewriteBody(bytes, staged, codec), again, codec) == RewriteBody(bytes, staged, codec)
  {
    if codec.unmarshal(bytes).Some? && DecodeSpans(codec.unmarshal(bytes).value).Some? {
      var spans := DecodeSpans(codec.unmarshal(bytes).value).value;
      var once := RewriteSpans(spans, staged);
      ModifiedDependsOnTagsOnly(spans, staged, again);
      if once.modified {
        var out := codec.marshal(EncodeSpans(once.spans)).value;
        assert codec.unmarshal(out) == Some(EncodeSpans(once.spans));
        DecodeEncodeSpans(once.spans);
        RewriteSpansIdempotent(spans, staged, again);
      }
    }
  }

  /**
    Running the director on its own output changes nothing further, even
    though each run visits the mapping in an order of its own.
   */
  lemma DirectIdempotent(store: seq<Pod>, cfg: Config, order1: seq<string>, order2: seq<string>,
                         codec: Codec, req: Request)
    requires IsIterationOrder(order1, MappingEntries(cfg.labelTagMapping))
    requires IsIterationOrder(order2, MappingEntries(cfg.labelTagMapping))
    requires RoundTrips(codec)
    ensures Direct(store, cfg, order2, codec, Direct(store, cfg, order1, codec, req)) ==
      Direct(store, cfg, order1, codec, req)
  {
    var r := Direct(store, cfg, order1, codec, req);
    assert Inspected(r) == Inspected(req) && r.remoteAddr == req.remoteAddr;
    if Inspected(req) && RequesterPod(store, req.remoteAddr).Success? {
      var pod := RequesterPod(store, req.remoteAddr).value;
      var mapping := MappingEntries(cfg.labelTagMapping);
      StagedTagsOrderFree(mapping, pod.labels, order1, order2);
      var staged := Stage(mapping, pod.labels, order1);
      var again := Stage(mapping, pod.labels, order2);
      if |staged| > 0 && req.body.Some? && req.body.value.read.Some? {
        var bytes := req.body.value.read.value;
        assert Reach(store, cfg, order1, req) == Some(Reached(bytes, staged));
        var final := RewriteBody(bytes, staged, codec);
        assert r == Retarget(req).(body := Some(Body(Some(final))), contentLength := |final|);
        assert Reach(store, cfg, order2, r) == Some(Reached(final, again));
        RewriteBodyIdempotent(bytes, staged, again, codec);
      } else {
        assert Reach(store, cfg, order1, req).None?;
        assert Reach(store, cfg, order2, r).None?;
      }
    } else {
      assert Reach(store, cfg, order1, req).None?;
      assert Reach(store, cfg, order2, r).None?;
    }
  }
}
