/**
  The director on the concrete requests of the repository's tests: a
  pod at 192.0.2.1 labelled `owner=from_label`, a request from
  192.0.2.1:1234, and the default mapping `owner→owner`.
 */
module Scenarios {
  import opened Wrappers
  import opened Json
  import opened HostPort
  import opened Pods
  import opened Staging
  import opened Spans
  import opened Configuration
  import opened Director

  const TestIp: string := "192.0.2.1"
  const TestRemoteAddr: string := "192.0.2.1:1234"
  const TestPod: Pod := Pod("default", "test-pod", TestIp, map["owner" := "from_label"])

  function Submission(bytes: Bytes): Request
  {
    Request(SubmitMethod, "", "", SpansPath, TestRemoteAddr, Some(Body(Some(bytes))), |bytes|)
  }

  /** The test address splits into the test IP, which finds the test pod. */
  lemma TestPodResolves(store: seq<Pod>)
    requires store == [TestPod]
    ensures RequesterPod(store, TestRemoteAddr) == Success(TestPod)
  {
    assert TestRemoteAddr == TestIp + ":" + "1234";
    SplitJoined(TestRemoteAddr, HostPort(TestIp, "1234"));
  }

  const OwnerStaged: map<string, string> := map["owner" := "from_label"]

  lemma DefaultMappingStagesOwner()
    ensures Stage(DefaultMapping, TestPod.labels, ["owner"]) == OwnerStaged
  {
  }

  /** The tags of the test spans: `http.method=GET, http.path=/api`. */
  const TestTags: map<string, Json> := map["http.method" := JString("GET"), "http.path" := JString("/api")]

  /** The span loop on one span whose tags, such as `TestTags`, lack `owner`. */
  lemma OwnerSpanRewrite(fields: map<string, Json>, tags: map<string, Json>)
    requires TagsKey in fields && fields[TagsKey] == JObject(tags) && "owner" !in tags
    ensures RewriteSpans([Fields(fields)], OwnerStaged) ==
      Rewrite([Fields(fields[TagsKey := JObject(tags["owner" := JString("from_label")])])], true)
  {
    assert FillTags(tags, OwnerStaged) == tags["owner" := JString("from_label")];
    assert NeedsFill(tags, OwnerStaged) by {
      assert "owner" in OwnerStaged && "owner" !in tags;
    }
    assert RewriteSpans([Fields(fields)], OwnerStaged).modified by {
      assert RewriteSpan([Fields(fields)][0], OwnerStaged).modified;
    }
  }

  lemma DecodeOneSpan(fields: map<string, Json>)
    ensures DecodeSpans(JArray([JObject(fields)])) == Some([Fields(fields)])
  {
    var spans := DecodeSpans(JArray([JObject(fields)])).value;
    assert EncodeSpan(spans[0]) == JObject(fields);
    assert spans == [Fields(fields)];
  }

  /** A span whose tags lack `owner` gains `owner=from_label`; the other tags stay. */
  lemma OwnerTagAdded(codec: Codec, bytes: Bytes, fields: map<string, Json>, tags: map<string, Json>, out: Bytes)
    requires TagsKey in fields && fields[TagsKey] == JObject(tags) && "owner" !in tags
    requires codec.unmarshal(bytes) == Some(JArray([JObject(fields)]))
    requires codec.marshal(EncodeSpans([Fields(fields[TagsKey := JObject(tags["owner" := JString("from_label")])])]))
      == Some(out)
    ensures Direct([TestPod], DefaultConfig, ["owner"], codec, Submission(bytes)).body == Some(Body(Some(out)))
  {
    TestPodResolves([TestPod]);
    DefaultMappingStagesOwner();
    DecodeOneSpan(fields);
    OwnerSpanRewrite(fields, tags);
    assert RewriteBody(bytes, OwnerStaged, codec) == out;
    ReadBodyIsReplaced([TestPod], DefaultConfig, ["owner"], codec, Submission(bytes));
  }

  /** The test's own span, tagged `TestTags`, gains `owner=from_label`. */
  lemma TestSpanGainsOwner(codec: Codec, bytes: Bytes, fields: map<string, Json>, out: Bytes)
    requires TagsKey in fields && fields[TagsKey] == JObject(TestTags)
    requires codec.unmarshal(bytes) == Some(JArray([JObject(fields)]))
    requires codec.marshal(EncodeSpans([Fields(fields[TagsKey := JObject(TestTags["owner" := JString("from_label")])])]))
      == Some(out)
    ensures Direct([TestPod], DefaultConfig, ["owner"], codec, Submission(bytes)).body == Some(Body(Some(out)))
  {
    OwnerTagAdded(codec, bytes, fields, TestTags, out);
  }

  /** The body `[null]` from the test pod makes the director as written panic. */
  lemma NullSpanSubmissionPanics(codec: Codec, bytes: Bytes)
    requires codec.unmarshal(bytes) == Some(JArray([JNull]))
    ensures DirectAsWritten([TestPod], DefaultConfig, ["owner"], codec, Submission(bytes)).None?
    ensures Direct([TestPod], DefaultConfig, ["owner"], codec, Submission(bytes)).body == Some(Body(Some(bytes)))
  {
    TestPodResolves([TestPod]);
    DefaultMappingStagesOwner();
    NullElementPanics(OwnerStaged);
    assert Reach([TestPod], DefaultConfig, ["owner"], Submission(bytes)) == Some(Reached(bytes, OwnerStaged));
  }

  /** A span that already carries `owner=from_span` keeps it, and the body is restored as read. */
  lemma OwnerTagKept(codec: Codec, bytes: Bytes, fields: map<string, Json>)
    requires TagsKey in fields && fields[TagsKey].JObject?
    requires "owner" in fields[TagsKey].fields && fields[TagsKey].fields["owner"] == JString("from_span")
    requires codec.unmarshal(bytes) == Some(JArray([JObject(fields)]))
    ensures Direct([TestPod], DefaultConfig, ["owner"], codec, Submission(bytes)).body == Some(Body(Some(bytes)))
  {
    TestPodResolves([TestPod]);
    DefaultMappingStagesOwner();
    DecodeOneSpan(fields);
    assert !RewriteSpan(Fields(fields), OwnerStaged).modified;
    assert !RewriteSpans([Fields(fields)], OwnerStaged).modified;
    ReadBodyIsReplaced([TestPod], DefaultConfig, ["owner"], codec, Submission(bytes));
  }

  /** A pod at another IP does not match, and the request passes through untouched. */
  lemma DifferentPodIpPassesThrough(codec: Codec, bytes: Bytes)
    ensures var pod := TestPod.(podIP := "10.0.0.1");
      Direct([pod], DefaultConfig, ["owner"], codec, Submission(bytes)) == Retarget(Submission(bytes))
  {
  }

  const TwoMapping: map<string, string> := map["label_a" := "tag_a", "label_b" := "tag_b"]

  /** LABEL_TAG_MAPPING `{"label_a":"tag_a", "label_b": "tag_b"}` parses into exactly that mapping. */
  lemma TwoMappingsParse(mappingEnv: Bytes, portEnv: Bytes, unmarshal: Bytes -> Option<Json>)
    requires |mappingEnv| > 0
    requires unmarshal(mappingEnv) == Some(JObject(map["label_a" := JString("tag_a"), "label_b" := JString("tag_b")]))
    requires PortOverrideOk(portEnv, unmarshal)
    ensures ParseConfigFromEnv(mappingEnv, portEnv, unmarshal).Success?
    ensures ParseConfigFromEnv(mappingEnv, portEnv, unmarshal).value.labelTagMapping == Some(TwoMapping)
  {
    assert StringObject(TwoMapping) == JObject(map["label_a" := JString("tag_a"), "label_b" := JString("tag_b")]);
    DecodeEncodeStringMap(TwoMapping);
  }

  const TwoLabels: map<string, string> := map["label_a" := "value_a", "label_b" := "value_b"]

  lemma TwoMappingOrder()
    ensures IsIterationOrder(["label_a", "label_b"], TwoMapping) && Injective(TwoMapping)
  {
  }

  lemma TwoLabelsStaged()
    ensures Stage(TwoMapping, TwoLabels, ["label_a", "label_b"]) == map["tag_a" := "value_a", "tag_b" := "value_b"]
  {
  }

  lemma TwoTagsObject()
    ensures StringObject(map["tag_a" := "value_a", "tag_b" := "value_b"]) ==
      JObject(map["tag_a" := JString("value_a"), "tag_b" := JString("value_b")])
  {
  }

  /**
    With that mapping and a pod carrying both labels, a span without tags
    receives exactly `tag_a` and `tag_b`, whatever order the mapping is
    visited in.
   */
  lemma TwoLabelsIntoMissingTags(order: seq<string>, fields: map<string, Json>)
    requires IsIterationOrder(order, TwoMapping)
    requires TagsKey !in fields
    ensures RewriteSpan(Fields(fields), Stage(TwoMapping, TwoLabels, order)).span.fields[TagsKey] ==
      JObject(map["tag_a" := JString("value_a"), "tag_b" := JString("value_b")])
  {
    var staged := map["tag_a" := "value_a", "tag_b" := "value_b"];
    assert Stage(TwoMapping, TwoLabels, order) == staged by {
      TwoMappingOrder();
      StageOrderIrrelevant(TwoMapping, TwoLabels, order, ["label_a", "label_b"]);
      TwoLabelsStaged();
    }
    TwoTagsObject();
  }
}
