/** `RefreshablePeerEurekaNodes`: the peer-node list that is rebuilt when the
    environment reports a change to the properties that determine the peers. */
module PeerNodes {
  import opened Wrappers
  import opened JavaText
  import opened Config

  const RegionKey: string := "eureka.client.region"
  const ServiceUrlPrefix: string := "eureka.client.service-url."
  const AvailabilityZonesPrefix: string := "eureka.client.availability-zones."

  /** Host label used when no host can be parsed from a peer URL. */
  const PlaceholderHost: string := "host"

  /** A changed key under one of the two per-zone property families. */
  predicate HasPeerPropertyPrefix(key: string) {
    StartsWith(key, ServiceUrlPrefix) || StartsWith(key, AvailabilityZonesPrefix)
  }

  /** A changed key that, on its own, affects which peers are resolved. */
  predicate IsPeerTopologyKey(key: string) {
    key == RegionKey || HasPeerPropertyPrefix(key)
  }

  /** The decision rule of `shouldUpdate`, in the order the source tests it:
      the DNS flag, the region key, then the two dotted prefixes. */
  function RefreshRequired(useDnsForFetchingServiceUrls: bool, changedKeys: set<string>): (r: bool)
    ensures useDnsForFetchingServiceUrls ==> !r
    ensures !useDnsForFetchingServiceUrls ==>
              (r <==> exists key :: key in changedKeys && IsPeerTopologyKey(key))
  {
    if useDnsForFetchingServiceUrls then false
    else if RegionKey in changedKeys then true
    else exists key :: key in changedKeys && HasPeerPropertyPrefix(key)
  }

  /** Two change events, or one event carrying both key sets: the rule requests
      a refresh for the union exactly when it does for one of the parts. */
  lemma RefreshRequiredUnion(useDns: bool, first: set<string>, second: set<string>)
    ensures RefreshRequired(useDns, first + second)
            == (RefreshRequired(useDns, first) || RefreshRequired(useDns, second))
  {
  }

  /** The boundary cases of the rule: DNS mode wins over the region key, the
      prefixes need their trailing dot, and only the exact region key counts. */
  lemma RefreshRequiredBoundaries()
    ensures !RefreshRequired(true, {RegionKey})
    ensures !RefreshRequired(false, {})
    ensures RefreshRequired(false, {RegionKey})
    ensures RefreshRequired(false, {"eureka.client.service-url.defaultZone"})
    ensures !RefreshRequired(false, {"eureka.client.availability-zones"})
    ensures !RefreshRequired(false, {"eureka.client.region.x"})
  {
    assert StartsWith("eureka.client.service-url.defaultZone", ServiceUrlPrefix);
    var noDot := "eureka.client.availability-zones";
    assert !IsPeerTopologyKey(noDot) by {
      assert |noDot| < |AvailabilityZonesPrefix|;
      assert noDot[14] != ServiceUrlPrefix[14];
    }
    var regionChild := "eureka.client.region.x";
    assert !IsPeerTopologyKey(regionChild) by {
      assert regionChild != RegionKey;
      assert regionChild[14] != ServiceUrlPrefix[14];
      assert regionChild[14] != AvailabilityZonesPrefix[14];
    }
  }

  /** A peer node: the replication target host and the peer's service URL. The
      replication client, the local registry and the server config it also holds
      are not part of this model. */
  datatype PeerEurekaNode = PeerEurekaNode(targetHost: string, serviceUrl: string)

  /** `createPeerEurekaNode`: the host parsed from the URL by `hostFromUrl`, or the
      placeholder label when parsing yields null; the URL is kept unchanged. */
  function CreatePeerEurekaNode(hostFromUrl: string -> Option<string>, peerEurekaNodeUrl: string): (node: PeerEurekaNode)
    ensures node.serviceUrl == peerEurekaNodeUrl
    ensures match hostFromUrl(peerEurekaNodeUrl)
            case Some(host) => node.targetHost == host
            case None => node.targetHost == PlaceholderHost
  {
    PeerEurekaNode(hostFromUrl(peerEurekaNodeUrl).GetOr(PlaceholderHost), peerEurekaNodeUrl)
  }

  /** A change notification: the keys whose values changed. */
  datatype EnvironmentChangeEvent = EnvironmentChangeEvent(keys: set<string>)

  class RefreshablePeerEurekaNodes {
    /** The client configuration, read afresh on every notification. */
    var clientConfig: ClientConfig
    /** The URL lists handed to `updatePeerEurekaNodes`, oldest first. */
    var peerUpdateRequests: seq<seq<string>>

    constructor (clientConfig: ClientConfig)
      ensures this.clientConfig == clientConfig
      ensures peerUpdateRequests == []
    {
      this.clientConfig := clientConfig;
      peerUpdateRequests := [];
    }

    /** `shouldUpdate`: the DNS flag, the region key, then a scan of the changed
        keys that stops at the first one under a per-zone prefix. */
    method ShouldUpdate(changedKeys: set<string>) returns (r: bool)
      ensures r == RefreshRequired(clientConfig.useDnsForFetchingServiceUrls, changedKeys)
    {
      if clientConfig.useDnsForFetchingServiceUrls {
        return false;
      }
      if RegionKey in changedKeys {
        return true;
      }
      var unseen := changedKeys;
      while unseen != {}
        invariant unseen <= changedKeys
        invariant forall key :: key in changedKeys - unseen ==> !HasPeerPropertyPrefix(key)
        decreases unseen
      {
        var key :| key in unseen;
        if StartsWith(key, ServiceUrlPrefix) || StartsWith(key, AvailabilityZonesPrefix) {
          return true;
        }
        unseen := unseen - {key};
      }
      return false;
    }

    /** `onApplicationEvent`: requests a peer update with the freshly resolved
        peer URLs exactly when the changed keys call for one. */
    method OnApplicationEvent(event: EnvironmentChangeEvent, resolvedPeerUrls: seq<string>)
      modifies this`peerUpdateRequests
      ensures RefreshRequired(clientConfig.useDnsForFetchingServiceUrls, event.keys) ==>
                peerUpdateRequests == old(peerUpdateRequests) + [resolvedPeerUrls]
      ensures !RefreshRequired(clientConfig.useDnsForFetchingServiceUrls, event.keys) ==>
                peerUpdateRequests == old(peerUpdateRequests)
    {
      var update := ShouldUpdate(event.keys);
      if update {
        peerUpdateRequests := peerUpdateRequests + [resolvedPeerUrls];
      }
    }
  }
}
