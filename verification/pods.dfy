/**
  The pod store and its IP index, and the lookup of the pod that sent a
  request.

  The indexer is modelled by the pods it currently holds; the IP index is
  derived from them through `IpIndexKeys`, so it is always in step with
  the store.
 */
module Pods {
  import opened Wrappers
  import opened HostPort

  datatype Pod = Pod(namespace: string, name: string, podIP: string, labels: map<string, string>)

  /** The index keys of a pod: its IP, unless no IP is assigned yet. */
  function IpIndexKeys(pod: Pod): (keys: seq<string>)
    ensures |keys| <= 1
    ensures forall ip :: ip in keys <==> ip != "" && ip == pod.podIP
  {
    if pod.podIP == "" then [] else [pod.podIP]
  }

  /** The pods of `store` indexed under `ip`, in store order. */
  function ByIndex(store: seq<Pod>, ip: string): (pods: seq<Pod>)
    ensures |pods| <= |store|
    ensures forall p :: p in pods <==> p in store && ip in IpIndexKeys(p)
  {
    if |store| == 0 then []
    else
      var rest := ByIndex(store[1..], ip);
      assert forall p :: p in store <==> p == store[0] || p in store[1..];
      if ip in IpIndexKeys(store[0]) then [store[0]] + rest else rest
  }

  /** The IPs under which at least one pod of `store` is indexed. */
  function IndexedIps(store: seq<Pod>): set<string>
  {
    set p | p in store && p.podIP != "" :: p.podIP
  }

  /**
    The whole IP index as a map from IP to its bucket of pods. An IP is a
    key exactly when some pod advertises it, the empty IP never is, and
    no bucket is empty.
   */
  function Index(store: seq<Pod>): (index: map<string, seq<Pod>>)
    ensures forall ip :: ip in index <==> ip != "" && exists p :: p in store && p.podIP == ip
    ensures forall ip :: ip in index ==> |index[ip]| > 0 && index[ip] == ByIndex(store, ip)
    ensures forall ip :: ip !in index ==> ByIndex(store, ip) == []
  {
    assert forall ip :: ip !in IndexedIps(store) ==> ByIndex(store, ip) == [] by {
      forall ip | ip !in IndexedIps(store) ensures ByIndex(store, ip) == [] {
        if ByIndex(store, ip) != [] {
          assert ByIndex(store, ip)[0] in ByIndex(store, ip);
        }
      }
    }
    map ip | ip in IndexedIps(store) :: ByIndex(store, ip)
  }

  /** Exactly one position of `store` holds a pod advertising `ip`. */
  predicate UniqueAt(store: seq<Pod>, ip: string, i: int)
  {
    && 0 <= i < |store|
    && store[i].podIP == ip
    && forall j :: 0 <= j < |store| && j != i ==> store[j].podIP != ip
  }

  /** A bucket holds one pod exactly when one store entry advertises the IP. */
  lemma {:induction false} SingletonBucket(store: seq<Pod>, ip: string)
    requires ip != ""
    ensures |ByIndex(store, ip)| == 1 <==> exists i :: UniqueAt(store, ip, i)
    ensures forall i :: UniqueAt(store, ip, i) ==> ByIndex(store, ip) == [store[i]]
  {
    if |store| == 0 {
    } else {
      SingletonBucket(store[1..], ip);
      var rest := ByIndex(store[1..], ip);
      if store[0].podIP == ip {
        if |rest| == 0 {
          assert UniqueAt(store, ip, 0) by {
            forall j | 0 < j < |store| ensures store[j].podIP != ip {
              assert store[j] == store[1..][j - 1];
              assert store[j] !in rest;
            }
          }
        } else {
          assert rest[0] in store[1..];
          var k :| 0 <= k < |store| - 1 && store[1..][k] == rest[0];
          forall i | 0 <= i < |store| ensures !UniqueAt(store, ip, i) {
            if i == 0 {
              assert store[k + 1].podIP == ip;
            } else {
              assert store[0].podIP == ip;
            }
          }
        }
      } else {
        forall i | UniqueAt(store, ip, i) ensures i > 0 && UniqueAt(store[1..], ip, i - 1) {
          forall j | 0 <= j < |store[1..]| && j != i - 1 ensures store[1..][j].podIP != ip {
            assert store[1..][j] == store[j + 1];
          }
        }
        forall i | UniqueAt(store[1..], ip, i) ensures UniqueAt(store, ip, i + 1) {
          forall j | 0 <= j < |store| && j != i + 1 ensures store[j].podIP != ip {
            if j > 0 { assert store[j] == store[1..][j - 1]; }
          }
        }
      }
    }
  }

  /** Why no single requester pod was found. */
  datatype LookupError = BadRemoteAddr(reason: AddrError) | NoPod | ManyPods(count: nat)

  /**
    The pod that sent a request from `remoteAddr`: the host part must
    split off, and exactly one indexed pod must advertise it.
   */
  function RequesterPod(store: seq<Pod>, remoteAddr: string): (r: Result<Pod, LookupError>)
    ensures r.Success? ==> r.value in store && r.value.podIP != ""
    ensures r.Success? ==> SplitHostPort(remoteAddr).Success? && SplitHostPort(remoteAddr).value.host == r.value.podIP
    ensures r.Success? ==> forall p :: p in store && p.podIP == r.value.podIP ==> p == r.value
    ensures r == Failure(NoPod) ==>
      SplitHostPort(remoteAddr).Success? && forall p :: p in store ==> p.podIP == "" || p.podIP != SplitHostPort(remoteAddr).value.host
    ensures r.Failure? && r.error.ManyPods? ==> r.error.count > 1
  {
    match SplitHostPort(remoteAddr)
    case Failure(e) => Failure(BadRemoteAddr(e))
    case Success(hp) =>
      var pods := ByIndex(store, hp.host);
      if |pods| < 1 then Failure(NoPod)
      else if |pods| > 1 then Failure(ManyPods(|pods|))
      else
        assert pods[0] in pods;
        Success(pods[0])
  }

  /**
    Resolution succeeds exactly when the address splits into a host that
    one store entry, and only one, advertises; that entry is the result.
   */
  lemma RequesterPodUnique(store: seq<Pod>, remoteAddr: string)
    ensures RequesterPod(store, remoteAddr).Success? <==>
      && SplitHostPort(remoteAddr).Success?
      && SplitHostPort(remoteAddr).value.host != ""
      && exists i :: UniqueAt(store, SplitHostPort(remoteAddr).value.host, i)
    ensures forall i ::
      (SplitHostPort(remoteAddr).Success? && SplitHostPort(remoteAddr).value.host != "" &&
       UniqueAt(store, SplitHostPort(remoteAddr).value.host, i))
      ==> RequesterPod(store, remoteAddr) == Success(store[i])
  {
    if SplitHostPort(remoteAddr).Success? {
      var host := SplitHostPort(remoteAddr).value.host;
      if host != "" {
        SingletonBucket(store, host);
      }
    }
  }
}
