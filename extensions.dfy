/**
 GetServiceExtension and GetServiceExtensionMap: finding an extension of a
 service type by exact service-type name and case-insensitive key, decoding
 its XML value into the caller's target, and flattening decoded labels into
 a map.
 */
module Extensions {
  import opened Wrappers
  import opened Model
  import opened Query
  import opened ServiceFabric

  /** ASCII lower-casing of one character. */
  function ToLower(ch: char): (r: char)
    ensures !('A' <= r <= 'Z')
    ensures ('a' <= r <= 'z') <==> ('A' <= ch <= 'Z' || 'a' <= ch <= 'z')
    ensures r != ch ==> 'A' <= ch <= 'Z' && r as int - ch as int == 'a' as int - 'A' as int
  {
    if 'A' <= ch <= 'Z' then (ch as int + 32) as char else ch
  }

  /** strings.EqualFold, restricted to ASCII case folding. */
  predicate EqualFold(a: string, b: string)
  {
    |a| == |b| && forall i :: 0 <= i < |a| ==> ToLower(a[i]) == ToLower(b[i])
  }

  /** Lower-casing twice is lower-casing once. */
  lemma ToLowerIdempotent(ch: char)
    ensures ToLower(ToLower(ch)) == ToLower(ch)
  {
  }

  /** The two characters are equal or the same ASCII letter in different case. */
  predicate SameUpToCase(x: char, y: char)
  {
    || x == y
    || ('A' <= x <= 'Z' && y as int == x as int + 32)
    || ('a' <= x <= 'z' && y as int == x as int - 32)
  }

  /** EqualFold holds exactly when the strings differ only in the case of ASCII letters. */
  lemma EqualFoldCaseOnly(a: string, b: string)
    ensures EqualFold(a, b) <==> |a| == |b| && forall i :: 0 <= i < |a| ==> SameUpToCase(a[i], b[i])
  {
    if |a| == |b| {
      forall i | 0 <= i < |a|
        ensures ToLower(a[i]) == ToLower(b[i]) <==> SameUpToCase(a[i], b[i])
      {
      }
    }
  }

  /** Case-insensitive equality is an equivalence. */
  lemma EqualFoldEquivalence(a: string, b: string, d: string)
    ensures EqualFold(a, a)
    ensures EqualFold(a, b) ==> EqualFold(b, a)
    ensures EqualFold(a, b) && EqualFold(b, d) ==> EqualFold(a, d)
  {
  }

  function TypeExtensions<X>(types: seq<ServiceType<X>>, i: nat): seq<KeyValuePair<X>>
    requires i < |types|
  {
    types[i].serviceTypeDescription.extensions
  }

  /** Extension j of service type i is one the scan accepts. */
  predicate Hit<X>(types: seq<ServiceType<X>>, serviceTypeName: string, extensionKey: string, i: int, j: int)
  {
    && 0 <= i < |types|
    && types[i].serviceTypeDescription.serviceTypeName == serviceTypeName
    && 0 <= j < |TypeExtensions(types, i)|
    && EqualFold(TypeExtensions(types, i)[j].key, extensionKey)
  }

  /** The first accepted extension in a list, from index j on. */
  function FirstKeyFrom<X>(exts: seq<KeyValuePair<X>>, extensionKey: string, j: nat): (r: Option<nat>)
    requires j <= |exts|
    ensures r.None? <==> forall m :: j <= m < |exts| ==> !EqualFold(exts[m].key, extensionKey)
    ensures r.Some? ==> j <= r.value < |exts| && EqualFold(exts[r.value].key, extensionKey)
    ensures r.Some? ==> forall m :: j <= m < r.value ==> !EqualFold(exts[m].key, extensionKey)
    decreases |exts| - j
  {
    if j == |exts| then None
    else if EqualFold(exts[j].key, extensionKey) then Some(j)
    else FirstKeyFrom(exts, extensionKey, j + 1)
  }

  /** The first hit of the nested scan, from service type i on. */
  function FirstHitFrom<X>(types: seq<ServiceType<X>>, serviceTypeName: string, extensionKey: string, i: nat)
    : (r: Option<(nat, nat)>)
    requires i <= |types|
    ensures r.None? <==> forall m, n :: i <= m ==> !Hit(types, serviceTypeName, extensionKey, m, n)
    ensures r.Some? ==> i <= r.value.0 && Hit(types, serviceTypeName, extensionKey, r.value.0, r.value.1)
    ensures r.Some? ==> forall m, n :: i <= m && Hit(types, serviceTypeName, extensionKey, m, n) ==>
                          r.value.0 < m || (r.value.0 == m && r.value.1 <= n)
    decreases |types| - i
  {
    if i == |types| then None
    else
      var k := if types[i].serviceTypeDescription.serviceTypeName == serviceTypeName
               then FirstKeyFrom(TypeExtensions(types, i), extensionKey, 0) else None;
      if k.Some? then
        assert Hit(types, serviceTypeName, extensionKey, i, k.value);
        Some((i, k.value))
      else
        assert forall n :: !Hit(types, serviceTypeName, extensionKey, i, n);
        FirstHitFrom(types, serviceTypeName, extensionKey, i + 1)
  }

  /** The extension GetServiceExtension decodes, if any: the first hit in scan order. */
  function FirstHit<X>(types: seq<ServiceType<X>>, serviceTypeName: string, extensionKey: string): (r: Option<(nat, nat)>)
    ensures r.None? <==> forall m, n :: !Hit(types, serviceTypeName, extensionKey, m, n)
    ensures r.Some? ==> Hit(types, serviceTypeName, extensionKey, r.value.0, r.value.1)
    ensures r.Some? ==> forall m, n :: Hit(types, serviceTypeName, extensionKey, m, n) ==>
                          r.value.0 < m || (r.value.0 == m && r.value.1 <= n)
  {
    FirstHitFrom(types, serviceTypeName, extensionKey, 0)
  }

  /** What GetServiceExtension leaves in the target, or the error it returns. */
  function ServiceExtension<X>(c: Client, serviceTypeName: string, extensionKey: string,
                               reply: Reply<seq<ServiceType<X>>>, response: X): Result<X, Error>
  {
    match GetHTTP(c, reply.raw)
    case Failure(e) => Failure(ExtensionRequest(e))
    case Success(_) =>
      match reply.decoded
      case None => Failure(JsonDeserialization)
      case Some(types) =>
        match FirstHit(types, serviceTypeName, extensionKey)
        case None => Success(response)
        case Some(hit) =>
          match TypeExtensions(types, hit.0)[hit.1].xml
          case None => Failure(XmlDeserialization)
          case Some(decoded) => Success(decoded)
  }

  function ServiceTypesPath(appType: string): string
  {
    "ApplicationTypes/" + appType + "/$/GetServiceTypes"
  }

  /**
   GetServiceExtension with its nested scan. `response` is the caller's target
   before the call; the result carries the target after it. `requests` holds
   the URL of the one request, unless the HTTP client is nil.
   */
  method GetServiceExtension<X>(c: Client, appType: string, applicationVersion: string, serviceTypeName: string,
                                extensionKey: string, reply: Reply<seq<ServiceType<X>>>, response: X)
      returns (r: Result<X, Error>, requests: seq<string>)
    ensures r == ServiceExtension(c, serviceTypeName, extensionKey, reply, response)
    ensures requests == if c.hasTransport
                        then [URL(c, ServiceTypesPath(appType), [WithParam("ApplicationTypeVersion", applicationVersion)])]
                        else []
  {
    requests := [];
    if c.hasTransport {
      var url := GetURL(c, ServiceTypesPath(appType), [WithParam("ApplicationTypeVersion", applicationVersion)]);
      requests := [url];
    }
    var res := GetHTTP(c, reply.raw);
    if res.Failure? {
      return Failure(ExtensionRequest(res.error)), requests;
    }
    if reply.decoded.None? {
      return Failure(JsonDeserialization), requests;
    }
    var serviceTypes := reply.decoded.value;
    for i := 0 to |serviceTypes|
      invariant forall m, n :: 0 <= m < i ==> !Hit(serviceTypes, serviceTypeName, extensionKey, m, n)
    {
      var description := serviceTypes[i].serviceTypeDescription;
      if description.serviceTypeName == serviceTypeName {
        for j := 0 to |description.extensions|
          invariant forall n :: 0 <= n < j ==> !Hit(serviceTypes, serviceTypeName, extensionKey, i, n)
        {
          var extension := description.extensions[j];
          if EqualFold(extension.key, extensionKey) {
            assert Hit(serviceTypes, serviceTypeName, extensionKey, i, j);
            ghost var first := FirstHit(serviceTypes, serviceTypeName, extensionKey);
            assert first == Some((i, j));
            if extension.xml.None? {
              return Failure(XmlDeserialization), requests;
            }
            return Success(extension.xml.value), requests;
          }
        }
      }
    }
    r := Success(response);
  }

  /** The labels as a map: each key to the value of its last label. */
  function LabelMap(labels: seq<Label>): map<string, string>
    decreases |labels|
  {
    if labels == [] then map[]
    else LabelMap(labels[..|labels| - 1])[labels[|labels| - 1].key := labels[|labels| - 1].value]
  }

  /** The keys of the label map are exactly the label keys. */
  lemma {:induction false} LabelMapKeys(labels: seq<Label>, k: string)
    ensures k in LabelMap(labels) <==> exists i :: 0 <= i < |labels| && labels[i].key == k
    decreases |labels|
  {
    if labels != [] {
      var init := labels[..|labels| - 1];
      LabelMapKeys(init, k);
      assert forall i :: 0 <= i < |init| ==> init[i] == labels[i];
    }
  }

  /** A key maps to the value of the last label carrying it. */
  lemma {:induction false} LabelMapLastWins(labels: seq<Label>, i: nat)
    requires i < |labels|
    requires forall j :: i < j < |labels| ==> labels[j].key != labels[i].key
    ensures labels[i].key in LabelMap(labels) && LabelMap(labels)[labels[i].key] == labels[i].value
    decreases |labels|
  {
    if i < |labels| - 1 {
      LabelMapLastWins(labels[..|labels| - 1], i);
    }
  }

  /** What GetServiceExtensionMap returns. */
  function ServiceExtensionMap(c: Client, serviceTypeName: string, extensionKey: string,
                               reply: Reply<seq<ServiceType<ServiceExtensionLabels>>>): Result<map<string, string>, Error>
  {
    match ServiceExtension(c, serviceTypeName, extensionKey, reply, ServiceExtensionLabels([]))
    case Failure(e) => Failure(e)
    case Success(extensionData) => Success(LabelMap(extensionData.labels))
  }

  /** GetServiceExtensionMap: decode the extension into labels, then flatten them. */
  method GetServiceExtensionMap(c: Client, service: ServiceItem, app: ApplicationItem, extensionKey: string,
                                reply: Reply<seq<ServiceType<ServiceExtensionLabels>>>)
      returns (r: Result<map<string, string>, Error>, requests: seq<string>)
    ensures r == ServiceExtensionMap(c, service.typeName, extensionKey, reply)
    ensures requests == if c.hasTransport
                        then [URL(c, ServiceTypesPath(app.typeName), [WithParam("ApplicationTypeVersion", app.typeVersion)])]
                        else []
  {
    var extensionData;
    extensionData, requests := GetServiceExtension(c, app.typeName, app.typeVersion, service.typeName, extensionKey,
                                                   reply, ServiceExtensionLabels([]));
    if extensionData.Failure? {
      return Failure(extensionData.error), requests;
    }
    var labelList := extensionData.value.labels;
    var labels: map<string, string> := map[];
    for i := 0 to |labelList|
      invariant labels == LabelMap(labelList[..i])
    {
      assert labelList[..i + 1][..i] == labelList[..i];
      labels := labels[labelList[i].key := labelList[i].value];
    }
    assert labelList[..|labelList|] == labelList;
    r := Success(labels);
  }

  /** No matching service type or extension key: success with no labels at all. */
  lemma NoExtensionNoLabels(c: Client, serviceTypeName: string, extensionKey: string,
                            reply: Reply<seq<ServiceType<ServiceExtensionLabels>>>)
    requires GetHTTP(c, reply.raw).Success? && reply.decoded.Some?
    requires forall m, n :: !Hit(reply.decoded.value, serviceTypeName, extensionKey, m, n)
    ensures ServiceExtensionMap(c, serviceTypeName, extensionKey, reply) == Success(map[])
  {
  }

  /** A successful map holds exactly the decoded label keys, each with its last value. */
  lemma ExtensionMapContents(c: Client, serviceTypeName: string, extensionKey: string,
                             reply: Reply<seq<ServiceType<ServiceExtensionLabels>>>, k: string)
    requires ServiceExtensionMap(c, serviceTypeName, extensionKey, reply).Success?
    ensures var labels := ServiceExtension(c, serviceTypeName, extensionKey, reply, ServiceExtensionLabels([])).value.labels;
            var m := ServiceExtensionMap(c, serviceTypeName, extensionKey, reply).value;
            && (k in m <==> exists i :: 0 <= i < |labels| && labels[i].key == k)
            && forall i :: (0 <= i < |labels| && labels[i].key == k &&
                            forall j :: i < j < |labels| ==> labels[j].key != k) ==> m[k] == labels[i].value
  {
    var labels := ServiceExtension(c, serviceTypeName, extensionKey, reply, ServiceExtensionLabels([])).value.labels;
    LabelMapKeys(labels, k);
    forall i | 0 <= i < |labels| && labels[i].key == k && (forall j :: i < j < |labels| ==> labels[j].key != k)
      ensures LabelMap(labels)[k] == labels[i].value
    {
      LabelMapLastWins(labels, i);
    }
  }
}
