/** The remote facts a manager polls: the service list and the installed
    version, with the RPC responses as values and each update as a function
    of the old state and the RPC outcome. */
module Facts {
  import opened Wrappers

  /** StateUnknown. */
  const Unknown: string := "unknown"

  /** One entry of a ServiceList reply (Id and State of machine.ServiceInfo). */
  datatype ServiceInfo = ServiceInfo(id: string, state: string)

  /** One per-node message of a ServiceList reply. */
  datatype ServiceListMessage = ServiceListMessage(services: seq<ServiceInfo>)

  datatype ServiceListResponse = ServiceListResponse(messages: seq<ServiceListMessage>)

  /** The version field of a Version message; None when the reply leaves it nil. */
  datatype VersionInfo = VersionInfo(tag: string)

  datatype VersionMessage = VersionMessage(version: Option<VersionInfo>)

  datatype VersionResponse = VersionResponse(messages: seq<VersionMessage>)

  /** An RPC failure; its contents are never inspected. */
  datatype RpcError = RpcError(message: string)

  type ServiceListResult = Result<ServiceListResponse, RpcError>

  type VersionResult = Result<VersionResponse, RpcError>

  /** The reset loop of updateServiceStatus: every listed service keeps its
      place and id and reads as unknown. */
  function Reset(services: seq<ServiceInfo>): (r: seq<ServiceInfo>)
    ensures |r| == |services|
    ensures forall i | 0 <= i < |r| :: r[i].id == services[i].id && r[i].state == Unknown
  {
    seq(|services|, i requires 0 <= i < |services| => ServiceInfo(services[i].id, Unknown))
  }

  /** The RPC succeeded and its reply holds at least one message. */
  predicate DeliversServices(r: ServiceListResult)
  {
    r.Success? && |r.value.messages| > 0
  }

  /** The service list after one updateServiceStatus: the list of the last
      message of a successful reply, otherwise the old list reset to unknown. */
  function AfterServiceList(services: seq<ServiceInfo>, r: ServiceListResult): (after: seq<ServiceInfo>)
    ensures DeliversServices(r) ==> after == r.value.messages[|r.value.messages| - 1].services
    ensures !DeliversServices(r) ==>
              && |after| == |services|
              && forall i | 0 <= i < |after| :: after[i].id == services[i].id && after[i].state == Unknown
  {
    if DeliversServices(r) then r.value.messages[|r.value.messages| - 1].services
    else Reset(services)
  }

  /** ServiceState's search: the state of the first service whose id is
      `name`, and unknown when no service has that id. */
  function Lookup(services: seq<ServiceInfo>, name: string): (state: string)
    ensures (forall i | 0 <= i < |services| :: services[i].id != name) ==> state == Unknown
    ensures forall i | 0 <= i < |services| && services[i].id == name ::
              (forall j | 0 <= j < i :: services[j].id != name) ==> state == services[i].state
  {
    if services == [] then Unknown
    else if services[0].id == name then services[0].state
    else
      assert forall i | 1 <= i < |services| :: services[i] == services[1..][i - 1];
      Lookup(services[1..], name)
  }

  /** After a reset, every name reads as unknown, listed or not. */
  lemma {:induction false} LookupReset(services: seq<ServiceInfo>, name: string)
    ensures Lookup(Reset(services), name) == Unknown
    decreases |services|
  {
    if services != [] {
      var r := Reset(services);
      if r[0].id != name {
        assert r[1..] == Reset(services[1..]);
        LookupReset(services[1..], name);
      }
    }
  }

  /** After one poll a service reads as its state in the last reported list,
      or as unknown when the RPC failed or reported nothing: a failed poll
      never leaves a stale state visible. */
  lemma LookupAfterPoll(services: seq<ServiceInfo>, r: ServiceListResult, name: string)
    ensures Lookup(AfterServiceList(services, r), name) ==
            if DeliversServices(r) then Lookup(r.value.messages[|r.value.messages| - 1].services, name)
            else Unknown
  {
    if !DeliversServices(r) {
      LookupReset(services, name);
    }
  }

  /** A service the last reported list leaves out reads as unknown. */
  lemma DroppedServiceIsUnknown(services: seq<ServiceInfo>, r: ServiceListResult, name: string)
    requires DeliversServices(r)
    requires forall s | s in r.value.messages[|r.value.messages| - 1].services :: s.id != name
    ensures Lookup(AfterServiceList(services, r), name) == Unknown
  {
    var last := r.value.messages[|r.value.messages| - 1].services;
    assert forall i | 0 <= i < |last| :: last[i].id != name by {
      forall i | 0 <= i < |last| ensures last[i].id != name {
        assert last[i] in last;
      }
    }
  }

  /** msg.GetVersion().GetTag(): the nil-safe getters yield "" for a missing version. */
  function Tag(msg: VersionMessage): (t: string)
    ensures msg.version.None? ==> t == ""
    ensures msg.version.Some? ==> t == msg.version.value.tag
  {
    match msg.version
    case None => ""
    case Some(info) => info.tag
  }

  predicate DeliversVersion(r: VersionResult)
  {
    r.Success? && |r.value.messages| > 0
  }

  /** The tag a delivering reply reports: that of its last message. */
  function ReportedTag(r: VersionResult): string
    requires DeliversVersion(r)
  {
    Tag(r.value.messages[|r.value.messages| - 1])
  }

  /** The version after one updateVersion: the tag of the last message of a
      successful reply, otherwise unchanged. */
  function AfterVersion(version: string, r: VersionResult): (after: string)
    ensures !DeliversVersion(r) ==> after == version
    ensures DeliversVersion(r) ==> after == Tag(r.value.messages[|r.value.messages| - 1])
  {
    if DeliversVersion(r) then ReportedTag(r) else version
  }

  /** The version after the polls `rs`, oldest first. */
  function ReplayVersion(version: string, rs: seq<VersionResult>): string
    decreases |rs|
  {
    if rs == [] then version
    else AfterVersion(ReplayVersion(version, rs[..|rs| - 1]), rs[|rs| - 1])
  }

  /** The tag of the most recent poll that delivered one, if any. */
  function LastReportedTag(rs: seq<VersionResult>): (t: Option<string>)
    ensures t.None? <==> forall i | 0 <= i < |rs| :: !DeliversVersion(rs[i])
    decreases |rs|
  {
    if rs == [] then None
    else if DeliversVersion(rs[|rs| - 1]) then Some(ReportedTag(rs[|rs| - 1]))
    else
      assert forall i | 0 <= i < |rs| - 1 :: rs[..|rs| - 1][i] == rs[i];
      LastReportedTag(rs[..|rs| - 1])
  }

  /** Poll i is the last of `rs` that delivered a version. */
  ghost predicate IsLastDelivering(rs: seq<VersionResult>, i: int)
  {
    && 0 <= i < |rs| && DeliversVersion(rs[i])
    && forall j | i < j < |rs| :: !DeliversVersion(rs[j])
  }

  /** A poll that delivers nothing keeps the last delivering one last. */
  lemma LastDeliveringSkipsFailure(rs: seq<VersionResult>, i: int)
    requires rs != [] && !DeliversVersion(rs[|rs| - 1])
    requires IsLastDelivering(rs[..|rs| - 1], i)
    ensures IsLastDelivering(rs, i) && rs[..|rs| - 1][i] == rs[i]
  {
    var init := rs[..|rs| - 1];
    forall j | i < j < |rs| ensures !DeliversVersion(rs[j]) {
      if j < |init| { assert init[j] == rs[j]; }
    }
  }

  /** The tag found is that of the last message of the last poll that
      delivered one. */
  lemma {:induction false} LastReportedTagIsLast(rs: seq<VersionResult>)
    ensures LastReportedTag(rs).Some? ==>
              exists i :: IsLastDelivering(rs, i) && LastReportedTag(rs).value == ReportedTag(rs[i])
    decreases |rs|
  {
    if rs != [] {
      var n := |rs| - 1;
      if DeliversVersion(rs[n]) {
        assert IsLastDelivering(rs, n) && LastReportedTag(rs).value == ReportedTag(rs[n]);
      } else {
        var init := rs[..n];
        LastReportedTagIsLast(init);
        assert LastReportedTag(rs) == LastReportedTag(init);
        if LastReportedTag(init).Some? {
          var i :| IsLastDelivering(init, i) && LastReportedTag(init).value == ReportedTag(init[i]);
          LastDeliveringSkipsFailure(rs, i);
          assert LastReportedTag(rs).value == ReportedTag(rs[i]);
        }
      }
    }
  }

  /** The version read after any run of polls is the tag of the last poll
      that delivered one, and the starting version (empty for a new manager)
      when none did: failed polls never blank it. */
  lemma {:induction false} VersionIsLastReportedTag(version: string, rs: seq<VersionResult>)
    ensures ReplayVersion(version, rs) ==
            match LastReportedTag(rs)
            case Some(t) => t
            case None => version
    decreases |rs|
  {
    if rs != [] {
      VersionIsLastReportedTag(version, rs[..|rs| - 1]);
    }
  }
}
