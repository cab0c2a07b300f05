/** The boot of a Snow node: ordered steps guarded by marker files that survive
    a crash. Every external effect may be lost, may happen although the boot then
    ends, or may succeed; every marker check may wrongly report a file as present,
    because any stat error other than "not found" counts as existing. */
module SnowBoot {
  import opened Basics

  datatype Marker = NetConfig | PartitionCreated | Rebooted | NodeIPConfigured

  /** The five stat calls of a boot; the reboot marker is looked at twice, and each call can err alone. */
  datatype Check = NetCheck | PartitionCheck | IPRebootCheck | IPDoneCheck | RebootCheck

  function MarkerOf(c: Check): (m: Marker) {
    match c
    case NetCheck => NetConfig
    case PartitionCheck => PartitionCreated
    case IPRebootCheck => Rebooted
    case IPDoneCheck => NodeIPConfigured
    case RebootCheck => Rebooted
  }

  datatype Event = Format | Mount | RebootRequest | SetNodeIP

  /** What is left after power is lost: the marker files and whether the network file is
      complete. The log of effects is kept to state properties of whole lives. */
  datatype Disk = Disk(markers: set<Marker>, netComplete: bool, log: seq<Event>)

  /** The outcome of one effect. Late: it happened, but the boot ends with it (an error
      reported afterwards, or a crash). For a file write, Late leaves a partial file. */
  datatype Outcome = Done | Lost | Late

  datatype Faults = Faults(
    cloudProvider: Outcome, providerID: Outcome, currentIP: Outcome, apiNodeIP: Outcome,
    createNodeIP: Outcome, kernel: Outcome, gatherNetwork: Outcome, writeNetwork: Outcome,
    partition: Outcome, createPartition: Outcome, mkdir: Outcome, mount: Outcome,
    createRebooted: Outcome, reboot: Outcome, lies: set<Check>)

  const CLEAN := Faults(Done, Done, Done, Done, Done, Done, Done, Done, Done, Done, Done, Done, Done, Done, {})
  const ALL_MARKERS := {NetConfig, PartitionCreated, Rebooted, NodeIPConfigured}
  const FRESH := Disk({}, false, [])

  predicate Sees(d: Disk, f: Faults, c: Check) { MarkerOf(c) in d.markers || c in f.lies }

  // ---- Specification of one boot ----

  /** The disk and whether the boot goes on. */
  datatype After = After(disk: Disk, ok: bool)

  function Act(d: Disk, o: Outcome, e: Event): (a: After) {
    After(if o == Lost then d else d.(log := d.log + [e]), o == Done)
  }

  function Touch(d: Disk, o: Outcome, m: Marker): (a: After) {
    After(if o == Lost then d else d.(markers := d.markers + {m}), o == Done)
  }

  function NodeIPStep(d: Disk, f: Faults): (a: After) {
    if !Sees(d, f, IPRebootCheck) || Sees(d, f, IPDoneCheck) then After(d, true)
    else if f.currentIP != Done then After(d, false)
    else
      var set_ := Act(d, f.apiNodeIP, SetNodeIP);
      if set_.ok then Touch(set_.disk, f.createNodeIP, NodeIPConfigured) else set_
  }

  function NetworkStep(d: Disk, f: Faults): (a: After) {
    if Sees(d, f, NetCheck) then After(d, true)
    else if f.gatherNetwork != Done then After(d, false)
    else
      var w := Touch(d, f.writeNetwork, NetConfig);
      After(if f.writeNetwork == Lost then d else w.disk.(netComplete := w.ok), w.ok)
  }

  function PartitionStep(d: Disk, f: Faults): (a: After) {
    if Sees(d, f, PartitionCheck) then After(d, true)
    else
      var formatted := Act(d, f.partition, Format);
      if formatted.ok then Touch(formatted.disk, f.createPartition, PartitionCreated) else formatted
  }

  function VolumeStep(d: Disk, f: Faults): (a: After) {
    var p := PartitionStep(d, f);
    if !p.ok then p
    else if f.mkdir != Done then After(p.disk, false)
    else Act(p.disk, f.mount, Mount)
  }

  function RebootStep(d: Disk, f: Faults): (a: After) {
    if Sees(d, f, RebootCheck) then After(d, true)
    else
      var marked := Touch(d, f.createRebooted, Rebooted);
      if marked.ok then Act(marked.disk, f.reboot, RebootRequest) else marked
  }

  function KubernetesStep(d: Disk, f: Faults): (a: After) {
    if f.cloudProvider != Done || f.providerID != Done then After(d, false) else NodeIPStep(d, f)
  }

  function Boot(d: Disk, f: Faults): (d': Disk) {
    var k := KubernetesStep(d, f);
    if !k.ok || f.kernel != Done then k.disk else
    var n := NetworkStep(k.disk, f);
    if !n.ok then n.disk else
    var v := VolumeStep(n.disk, f);
    if !v.ok then v.disk else
    RebootStep(v.disk, f).disk
  }

  /** A life of the node: one boot after the other, each with its own faults. */
  function Life(d: Disk, boots: seq<Faults>): (d': Disk) {
    if boots == [] then d else Boot(Life(d, boots[..|boots| - 1]), boots[|boots| - 1])
  }

  // ---- The boot in plain terms ----

  /** The node IP is due: the node was rebooted and has none yet, as the checks report. */
  predicate IPDue(d: Disk, f: Faults) { Sees(d, f, IPRebootCheck) && !Sees(d, f, IPDoneCheck) }

  predicate ReachesIP(f: Faults) { f.cloudProvider == Done && f.providerID == Done }

  predicate ReachesNetwork(d: Disk, f: Faults) {
    && ReachesIP(f)
    && (IPDue(d, f) ==> f.currentIP == Done && f.apiNodeIP == Done && f.createNodeIP == Done)
    && f.kernel == Done
  }

  /** Every effect up to the containerd volume was done. */
  predicate ReachesVolume(d: Disk, f: Faults) {
    ReachesNetwork(d, f) && (Sees(d, f, NetCheck) || (f.gatherNetwork == Done && f.writeNetwork == Done))
  }

  predicate ReachesMount(d: Disk, f: Faults) {
    && ReachesVolume(d, f) && (Sees(d, f, PartitionCheck) || (f.partition == Done && f.createPartition == Done))
    && f.mkdir == Done
  }

  predicate ReachesReboot(d: Disk, f: Faults) { ReachesMount(d, f) && f.mount == Done }

  function If(b: bool, e: Event): (es: seq<Event>) { if b then [e] else [] }

  predicate SetsIP(d: Disk, f: Faults) { ReachesIP(f) && IPDue(d, f) && f.currentIP == Done && f.apiNodeIP != Lost }
  predicate Formats(d: Disk, f: Faults) {
    ReachesVolume(d, f) && !Sees(d, f, PartitionCheck) && f.partition != Lost
  }
  predicate Mounts(d: Disk, f: Faults) { ReachesMount(d, f) && f.mount != Lost }
  predicate Reboots(d: Disk, f: Faults) {
    ReachesReboot(d, f) && !Sees(d, f, RebootCheck) && f.createRebooted == Done && f.reboot != Lost
  }

  /** What one boot does, effect by effect: each one happens exactly when its guard is open and every effect
      before it was done, and is left out exactly when it was itself lost. */
  lemma BootLogInPlainTerms(d: Disk, f: Faults)
    ensures Boot(d, f).log == d.log + If(SetsIP(d, f), SetNodeIP) + If(Formats(d, f), Format)
                              + If(Mounts(d, f), Mount) + If(Reboots(d, f), RebootRequest)
  {
    var k := KubernetesStep(d, f);
    KubernetesInPlainTerms(d, f);
    if k.ok && f.kernel == Done {
      var n := NetworkStep(k.disk, f);
      NetworkInPlainTerms(k.disk, f);
      if n.ok {
        var v := VolumeStep(n.disk, f);
        VolumeInPlainTerms(n.disk, f);
        if v.ok { RebootInPlainTerms(v.disk, f); }
      }
    }
  }

  lemma BootMarkersInPlainTerms(d: Disk, f: Faults)
    ensures Boot(d, f).markers == d.markers
              + (if SetsIP(d, f) && f.apiNodeIP == Done && f.createNodeIP != Lost then {NodeIPConfigured} else {})
              + (if ReachesNetwork(d, f) && !Sees(d, f, NetCheck) && f.gatherNetwork == Done && f.writeNetwork != Lost
                 then {NetConfig} else {})
              + (if Formats(d, f) && f.partition == Done && f.createPartition != Lost then {PartitionCreated} else {})
              + (if ReachesReboot(d, f) && !Sees(d, f, RebootCheck) && f.createRebooted != Lost then {Rebooted} else {})
  {
    var k := KubernetesStep(d, f);
    KubernetesInPlainTerms(d, f);
    if k.ok && f.kernel == Done {
      var n := NetworkStep(k.disk, f);
      NetworkInPlainTerms(k.disk, f);
      if n.ok {
        var v := VolumeStep(n.disk, f);
        VolumeInPlainTerms(n.disk, f);
        if v.ok { RebootInPlainTerms(v.disk, f); }
      }
    }
  }

  lemma NetworkInPlainTerms(d: Disk, f: Faults)
    ensures NetworkStep(d, f).ok <==> Sees(d, f, NetCheck) || (f.gatherNetwork == Done && f.writeNetwork == Done)
    ensures NetworkStep(d, f).disk.log == d.log
    ensures NetworkStep(d, f).disk.markers == d.markers +
              if !Sees(d, f, NetCheck) && f.gatherNetwork == Done && f.writeNetwork != Lost then {NetConfig} else {}
  {
  }

  lemma RebootInPlainTerms(d: Disk, f: Faults)
    ensures RebootStep(d, f).disk.log ==
              d.log + If(!Sees(d, f, RebootCheck) && f.createRebooted == Done && f.reboot != Lost, RebootRequest)
    ensures RebootStep(d, f).disk.markers ==
              d.markers + if !Sees(d, f, RebootCheck) && f.createRebooted != Lost then {Rebooted} else {}
  {
  }

  lemma KubernetesInPlainTerms(d: Disk, f: Faults)
    ensures KubernetesStep(d, f).ok && f.kernel == Done <==> ReachesNetwork(d, f)
    ensures KubernetesStep(d, f).disk.log == d.log + If(SetsIP(d, f), SetNodeIP)
    ensures KubernetesStep(d, f).disk.markers == d.markers +
              if SetsIP(d, f) && f.apiNodeIP == Done && f.createNodeIP != Lost then {NodeIPConfigured} else {}
  {
  }

  lemma VolumeInPlainTerms(d: Disk, f: Faults)
    ensures VolumeStep(d, f).ok <==>
              && (Sees(d, f, PartitionCheck) || (f.partition == Done && f.createPartition == Done))
              && f.mkdir == Done && f.mount == Done
    ensures VolumeStep(d, f).disk.log == d.log
              + If(!Sees(d, f, PartitionCheck) && f.partition != Lost, Format)
              + If((Sees(d, f, PartitionCheck) || (f.partition == Done && f.createPartition == Done))
                   && f.mkdir == Done && f.mount != Lost, Mount)
    ensures VolumeStep(d, f).disk.markers == d.markers +
              if !Sees(d, f, PartitionCheck) && f.partition == Done && f.createPartition != Lost
              then {PartitionCreated} else {}
  {
  }

  // ---- The boot as the program runs it ----

  class Snow {
    var disk: Disk

    constructor (d: Disk) ensures disk == d { disk := d; }

    method Emit(o: Outcome, e: Event) returns (ok: bool)
      modifies this
      ensures After(disk, ok) == Act(old(disk), o, e)
    {
      if o != Lost { disk := disk.(log := disk.log + [e]); }
      ok := o == Done;
    }

    method Create(o: Outcome, m: Marker) returns (ok: bool)
      modifies this
      ensures After(disk, ok) == Touch(old(disk), o, m)
    {
      if o != Lost { disk := disk.(markers := disk.markers + {m}); }
      ok := o == Done;
    }

    method ConfigureNodeIP(f: Faults) returns (ok: bool)
      modifies this
      ensures After(disk, ok) == NodeIPStep(old(disk), f)
    {
      if !Sees(disk, f, IPRebootCheck) || Sees(disk, f, IPDoneCheck) { return true; }
      if f.currentIP != Done { return false; }
      ok := Emit(f.apiNodeIP, SetNodeIP);
      if !ok { return false; }
      ok := Create(f.createNodeIP, NodeIPConfigured);
    }

    method ConfigureKubernetesSettings(f: Faults) returns (ok: bool)
      modifies this
      ensures After(disk, ok) == KubernetesStep(old(disk), f)
    {
      if f.cloudProvider != Done { return false; }
      if f.providerID != Done { return false; }
      ok := ConfigureNodeIP(f);
    }

    method ConfigureDNI(f: Faults) returns (ok: bool)
      modifies this
      ensures After(disk, ok) == NetworkStep(old(disk), f)
    {
      if Sees(disk, f, NetCheck) { return true; }
      if f.gatherNetwork != Done { return false; }
      ok := Create(f.writeNetwork, NetConfig);
      if f.writeNetwork != Lost { disk := disk.(netComplete := ok); }
    }

    method CreatePartition(f: Faults) returns (ok: bool)
      modifies this
      ensures After(disk, ok) == PartitionStep(old(disk), f)
    {
      if Sees(disk, f, PartitionCheck) { return true; }
      ok := Emit(f.partition, Format);
      if !ok { return false; }
      ok := Create(f.createPartition, PartitionCreated);
    }

    method MountContainerdVolume(f: Faults) returns (ok: bool)
      modifies this
      ensures After(disk, ok) == VolumeStep(old(disk), f)
    {
      ok := CreatePartition(f);
      if !ok { return false; }
      if f.mkdir != Done { return false; }
      ok := Emit(f.mount, Mount);
    }

    method RebootInstanceIfNeeded(f: Faults) returns (ok: bool)
      modifies this
      ensures After(disk, ok) == RebootStep(old(disk), f)
    {
      if Sees(disk, f, RebootCheck) { return true; }
      ok := Create(f.createRebooted, Rebooted);
      if !ok { return false; }
      ok := Emit(f.reboot, RebootRequest);
    }

    /** One boot. It requests no second reboot whatever the checks report; with truthful checks a
        mounted device stays marked and unformatted, and the markers keep their order. */
    method Bootstrap(f: Faults)
      modifies this
      ensures disk == Boot(old(disk), f)
      ensures RebootInv(old(disk)) ==> RebootInv(disk)
      ensures Truthful(f) && VolumeInv(old(disk)) ==> VolumeInv(disk)
      ensures Truthful(f) && OrderInv(old(disk)) ==> OrderInv(disk)
    {
      if RebootInv(disk) { BootKeepsRebootInv(disk, f); }
      if VolumeInv(disk) { BootKeepsVolumeInvIff(disk, f); }
      if Truthful(f) && OrderInv(disk) { BootKeepsOrder(disk, f); }
      var ok := ConfigureKubernetesSettings(f);
      if !ok { return; }
      if f.kernel != Done { return; }
      ok := ConfigureDNI(f);
      if !ok { return; }
      ok := MountContainerdVolume(f);
      if !ok { return; }
      ok := RebootInstanceIfNeeded(f);
    }

    /** The node's whole life: boot after boot, each with its own faults. */
    method Live(boots: seq<Faults>)
      modifies this
      ensures disk == Life(old(disk), boots)
      ensures RebootInv(old(disk)) ==> RebootInv(disk)
      ensures (forall i :: 0 <= i < |boots| ==> Truthful(boots[i])) && VolumeInv(old(disk)) ==> VolumeInv(disk)
    {
      for i := 0 to |boots|
        invariant disk == Life(old(disk), boots[..i])
        invariant RebootInv(old(disk)) ==> RebootInv(disk)
        invariant (forall k :: 0 <= k < i ==> Truthful(boots[k])) && VolumeInv(old(disk)) ==> VolumeInv(disk)
      {
        assert boots[..i + 1][..i] == boots[..i];
        Bootstrap(boots[i]);
      }
      assert boots[..|boots|] == boots;
    }
  }

  // ---- Safety over whole lives ----

  ghost predicate NoFormatAfterMount(log: seq<Event>) {
    forall i, j :: 0 <= i < j < |log| && log[i] == Mount ==> log[j] != Format
  }

  ghost predicate AtMostOneReboot(log: seq<Event>) {
    forall i, j :: 0 <= i < j < |log| && log[i] == RebootRequest ==> log[j] != RebootRequest
  }

  /** Holds in every life, whatever the marker checks report. */
  ghost predicate RebootInv(d: Disk) {
    && AtMostOneReboot(d.log)
    && (RebootRequest in d.log ==> Rebooted in d.markers)
  }

  /** Holds as long as the checks are truthful. */
  ghost predicate VolumeInv(d: Disk) {
    && NoFormatAfterMount(d.log)
    && (Mount in d.log ==> PartitionCreated in d.markers)
  }

  ghost predicate OrderInv(d: Disk) {
    && (Rebooted in d.markers ==> NetConfig in d.markers && PartitionCreated in d.markers)
    && (NodeIPConfigured in d.markers ==> Rebooted in d.markers)
  }

  predicate Truthful(f: Faults) { f.lies == {} }

  lemma AppendEvent(log: seq<Event>, e: Event)
    ensures AtMostOneReboot(log + [e]) <==> AtMostOneReboot(log) && (e == RebootRequest ==> e !in log)
    ensures NoFormatAfterMount(log + [e]) <==> NoFormatAfterMount(log) && (e == Format ==> Mount !in log)
  {
    var grown := log + [e];
    assert forall i :: 0 <= i < |log| ==> grown[i] == log[i];
    assert grown[|log|] == e;
    if AtMostOneReboot(grown) { assert AtMostOneReboot(log); }
    if NoFormatAfterMount(grown) { assert NoFormatAfterMount(log); }
  }

  lemma EarlyStepsKeepRebootInv(d: Disk, f: Faults)
    requires RebootInv(d)
    ensures RebootInv(KubernetesStep(d, f).disk) && RebootInv(NetworkStep(d, f).disk)
  {
    AppendEvent(d.log, SetNodeIP);
  }

  lemma VolumeKeepsRebootInv(d: Disk, f: Faults)
    requires RebootInv(d)
    ensures RebootInv(VolumeStep(d, f).disk)
  {
  }

  lemma RebootStepKeepsRebootInv(d: Disk, f: Faults)
    requires RebootInv(d)
    ensures RebootInv(RebootStep(d, f).disk)
  {
    AppendEvent(d.log, RebootRequest);
  }

  /** No life requests a second reboot, even when checks report files that are not there. */
  lemma BootKeepsRebootInv(d: Disk, f: Faults)
    requires RebootInv(d)
    ensures RebootInv(Boot(d, f))
  {
    var k := KubernetesStep(d, f).disk;
    var n := NetworkStep(k, f).disk;
    EarlyStepsKeepRebootInv(d, f);
    EarlyStepsKeepRebootInv(k, f);
    VolumeKeepsRebootInv(n, f);
    RebootStepKeepsRebootInv(VolumeStep(n, f).disk, f);
  }

  lemma BootKeepsOrder(d: Disk, f: Faults)
    requires Truthful(f) && OrderInv(d)
    ensures OrderInv(Boot(d, f))
  {
  }

  /** A check reports the partition marker although it is absent, and the mount happens. */
  predicate MountsUnmarked(d: Disk, f: Faults) {
    && PartitionCheck in f.lies && PartitionCreated !in d.markers
    && ReachesVolume(d, f) && f.mkdir == Done && f.mount != Lost
  }

  lemma VolumeStepInvIff(d: Disk, f: Faults)
    requires VolumeInv(d)
    ensures VolumeInv(VolumeStep(d, f).disk) <==>
            !(PartitionCheck in f.lies && PartitionCreated !in d.markers && f.mkdir == Done && f.mount != Lost)
  {
  }

  lemma EarlyStepsKeepVolumeInv(d: Disk, f: Faults)
    requires VolumeInv(d)
    ensures VolumeInv(KubernetesStep(d, f).disk) && VolumeInv(NetworkStep(d, f).disk)
    ensures forall a :: a in [KubernetesStep(d, f), NetworkStep(d, f)] ==>
              (PartitionCreated in a.disk.markers <==> PartitionCreated in d.markers)
  {
    KubernetesInPlainTerms(d, f);
    NetworkInPlainTerms(d, f);
    AppendEvent(d.log, SetNodeIP);
    var k := KubernetesStep(d, f).disk;
    assert k.log == d.log || k.log == d.log + [SetNodeIP];
    assert Mount in k.log <==> Mount in d.log;
  }

  lemma RebootStepSameVolumeInv(d: Disk, f: Faults)
    ensures VolumeInv(RebootStep(d, f).disk) <==> VolumeInv(d)
  {
    AppendEvent(d.log, RebootRequest);
    assert Mount in d.log + [RebootRequest] <==> Mount in d.log;
  }

  /** One boot breaks the guarantee "mounted means marked, and no format after a mount"
      exactly when a wrong marker check lets it mount an unmarked device. */
  lemma BootKeepsVolumeInvIff(d: Disk, f: Faults)
    requires VolumeInv(d)
    ensures VolumeInv(Boot(d, f)) <==> !MountsUnmarked(d, f)
  {
    var k := KubernetesStep(d, f);
    EarlyStepsKeepVolumeInv(d, f);
    if k.ok && f.kernel == Done {
      var n := NetworkStep(k.disk, f);
      EarlyStepsKeepVolumeInv(k.disk, f);
      if n.ok {
        VolumeStepInvIff(n.disk, f);
        RebootStepSameVolumeInv(VolumeStep(n.disk, f).disk, f);
      }
    }
  }

  /** Across any number of boots with crashes or failures anywhere and truthful checks:
      the device is never formatted after a mount, at most one reboot is requested, and
      the markers appear in their order. */
  lemma {:induction false} EveryLifeIsSafe(boots: seq<Faults>)
    requires forall i :: 0 <= i < |boots| ==> Truthful(boots[i])
    ensures VolumeInv(Life(FRESH, boots)) && RebootInv(Life(FRESH, boots)) && OrderInv(Life(FRESH, boots))
  {
    if boots != [] {
      var before := boots[..|boots| - 1];
      EveryLifeIsSafe(before);
      var d, f := Life(FRESH, before), boots[|boots| - 1];
      BootKeepsVolumeInvIff(d, f);
      BootKeepsRebootInv(d, f);
      BootKeepsOrder(d, f);
    }
  }

  /** The volume guarantee holds after every boot of a life. */
  ghost predicate VolumeSafe(boots: seq<Faults>) {
    boots == [] || (VolumeSafe(boots[..|boots| - 1]) && VolumeInv(Life(FRESH, boots)))
  }

  ghost predicate NeverMountsUnmarked(boots: seq<Faults>) {
    boots == [] ||
    var before := boots[..|boots| - 1];
    NeverMountsUnmarked(before) && !MountsUnmarked(Life(FRESH, before), boots[|boots| - 1])
  }

  /** Over whole lives with any checks: the volume guarantee holds after every boot if and only if no
      boot mounts an unmarked device. */
  lemma {:induction false} VolumeSafeIff(boots: seq<Faults>)
    ensures VolumeSafe(boots) <==> NeverMountsUnmarked(boots)
  {
    if boots != [] {
      var before := boots[..|boots| - 1];
      VolumeSafeIff(before);
      if VolumeSafe(before) { BootKeepsVolumeInvIff(Life(FRESH, before), boots[|boots| - 1]); }
    }
  }

  // ---- Exactly when a mounted device is formatted ----

  /** The boot gets to the volume, sees no partition marker and formats, after a mount in an earlier boot. */
  predicate FormatsMounted(d: Disk, f: Faults) {
    Mount in d.log && Formats(d, f)
  }

  lemma EarlyStepsKeepNoFormat(d: Disk, f: Faults)
    ensures NoFormatAfterMount(KubernetesStep(d, f).disk.log) <==> NoFormatAfterMount(d.log)
    ensures Mount in KubernetesStep(d, f).disk.log <==> Mount in d.log
    ensures PartitionCreated in KubernetesStep(d, f).disk.markers <==> PartitionCreated in d.markers
    ensures NetworkStep(d, f).disk.log == d.log
    ensures PartitionCreated in NetworkStep(d, f).disk.markers <==> PartitionCreated in d.markers
  {
    AppendEvent(d.log, SetNodeIP);
  }

  lemma VolumeStepFormatsIff(d: Disk, f: Faults)
    ensures NoFormatAfterMount(VolumeStep(d, f).disk.log) <==>
            NoFormatAfterMount(d.log) && !(Mount in d.log && !Sees(d, f, PartitionCheck) && f.partition != Lost)
  {
    AppendEvent(d.log, Format);
    AppendEvent(PartitionStep(d, f).disk.log, Mount);
  }

  lemma RebootStepKeepsNoFormat(d: Disk, f: Faults)
    ensures NoFormatAfterMount(RebootStep(d, f).disk.log) <==> NoFormatAfterMount(d.log)
  {
    AppendEvent(d.log, RebootRequest);
  }

  /** One boot, from any disk. */
  lemma BootFormatsMountedIff(d: Disk, f: Faults)
    ensures NoFormatAfterMount(Boot(d, f).log) <==> NoFormatAfterMount(d.log) && !FormatsMounted(d, f)
  {
    var k := KubernetesStep(d, f);
    EarlyStepsKeepNoFormat(d, f);
    if k.ok && f.kernel == Done {
      var n := NetworkStep(k.disk, f);
      EarlyStepsKeepNoFormat(k.disk, f);
      if n.ok {
        VolumeStepFormatsIff(n.disk, f);
        RebootStepKeepsNoFormat(VolumeStep(n.disk, f).disk, f);
      }
    }
  }

  ghost predicate NeverFormatsMounted(boots: seq<Faults>) {
    boots == [] ||
    var before := boots[..|boots| - 1];
    NeverFormatsMounted(before) && !FormatsMounted(Life(FRESH, before), boots[|boots| - 1])
  }

  /** Whole lives, whatever the checks report: the device is never formatted after a mount if and only if no
      boot that follows a mount reaches the volume, sees no partition marker and formats. */
  lemma {:induction false} NoFormatAfterMountIff(boots: seq<Faults>)
    ensures NoFormatAfterMount(Life(FRESH, boots).log) <==> NeverFormatsMounted(boots)
  {
    if boots != [] {
      var before := boots[..|boots| - 1];
      NoFormatAfterMountIff(before);
      BootFormatsMountedIff(Life(FRESH, before), boots[|boots| - 1]);
    }
  }

  lemma {:induction false} EveryLifeRebootsAtMostOnce(boots: seq<Faults>)
    ensures AtMostOneReboot(Life(FRESH, boots).log) && RebootInv(Life(FRESH, boots))
  {
    if boots != [] {
      EveryLifeRebootsAtMostOnce(boots[..|boots| - 1]);
      BootKeepsRebootInv(Life(FRESH, boots[..|boots| - 1]), boots[|boots| - 1]);
    }
  }

  /** Without truthful checks the format guarantee fails: one boot mounts on the strength of
      a failed stat call, the next one formats what was mounted. */
  lemma WrongCheckFormatsMountedDevice()
    ensures var liar := CLEAN.(lies := {PartitionCheck}, createRebooted := Lost);
            !NoFormatAfterMount(Life(FRESH, [liar, CLEAN]).log)
  {
    var liar := CLEAN.(lies := {PartitionCheck}, createRebooted := Lost);
    LifeOfTwo(FRESH, liar, CLEAN);
    LiarMounts();
    CleanBootFormats();
  }

  lemma LiarMounts()
    ensures Boot(FRESH, CLEAN.(lies := {PartitionCheck}, createRebooted := Lost)) == Disk({NetConfig}, true, [Mount])
  {
  }

  lemma CleanBootFormats()
    ensures !NoFormatAfterMount(Boot(Disk({NetConfig}, true, [Mount]), CLEAN).log)
  {
    var one := Disk({NetConfig}, true, [Mount]);
    BootFormatsMountedIff(one, CLEAN);
    assert FormatsMounted(one, CLEAN);
  }

  lemma LifeOfTwo(d: Disk, a: Faults, b: Faults)
    ensures Life(d, [a, b]) == Boot(Boot(d, a), b)
  {
    assert [a, b][..1] == [a] && [a][..0] == [];
    assert Life(d, [a]) == Boot(d, a);
  }

  /** A boot sets the node IP only when the reboot marker is seen at its start. */
  lemma NodeIPNeedsReboot(d: Disk, f: Faults)
    ensures d.log <= Boot(d, f).log
    ensures SetNodeIP in Boot(d, f).log[|d.log|..] ==> Sees(d, f, IPRebootCheck)
  {
    BootLogInPlainTerms(d, f);
    var rest := If(SetsIP(d, f), SetNodeIP) + If(Formats(d, f), Format) + If(Mounts(d, f), Mount)
                + If(Reboots(d, f), RebootRequest);
    assert Boot(d, f).log == d.log + rest;
    assert Boot(d, f).log[|d.log|..] == rest;
  }

  /** The node IP is set only in a boot that began with the network, partition and reboot
      markers already on disk. */
  lemma NodeIPOnlyAfterEarlierBoots(boots: seq<Faults>, f: Faults)
    requires Truthful(f) && forall i :: 0 <= i < |boots| ==> Truthful(boots[i])
    ensures var d := Life(FRESH, boots);
            && d.log <= Boot(d, f).log
            && (SetNodeIP in Boot(d, f).log[|d.log|..] ==> {NetConfig, PartitionCreated, Rebooted} <= d.markers)
  {
    EveryLifeIsSafe(boots);
    NodeIPNeedsReboot(Life(FRESH, boots), f);
  }

  // ---- Convergence and the network file ----

  /** From any disk two boots without failures reach the settled state; one is enough exactly
      when the reboot marker or the node IP marker was there before. */
  lemma TwoCleanBootsSettle(d: Disk)
    ensures Boot(Boot(d, CLEAN), CLEAN).markers == ALL_MARKERS
    ensures Boot(d, CLEAN).markers == ALL_MARKERS <==> Rebooted in d.markers || NodeIPConfigured in d.markers
  {
    var one := Boot(d, CLEAN);
    forall m: Marker ensures m in ALL_MARKERS {
      match m { case NetConfig => case PartitionCreated => case Rebooted => case NodeIPConfigured => }
    }
    assert {NetConfig, PartitionCreated, Rebooted} <= one.markers;
    assert ALL_MARKERS <= Boot(one, CLEAN).markers;
  }

  /** In the settled state no boot, failing or not, adds a marker, formats, reboots or sets
      the node IP again: all it can still do is mount. */
  lemma SettledBootOnlyMounts(d: Disk, f: Faults)
    requires d.markers == ALL_MARKERS
    ensures Boot(d, f).markers == ALL_MARKERS && Boot(d, f).netComplete == d.netComplete
    ensures Boot(d, f).log in [d.log, d.log + [Mount]]
  {
  }

  lemma {:induction false} SettledForever(d: Disk, boots: seq<Faults>)
    requires d.markers == ALL_MARKERS
    ensures Life(d, boots).markers == ALL_MARKERS
    ensures |d.log| <= |Life(d, boots).log| <= |d.log| + |boots| && d.log <= Life(d, boots).log
    ensures forall i :: |d.log| <= i < |Life(d, boots).log| ==> Life(d, boots).log[i] == Mount
  {
    if boots != [] {
      SettledForever(d, boots[..|boots| - 1]);
      SettledBootOnlyMounts(Life(d, boots[..|boots| - 1]), boots[|boots| - 1]);
    }
  }

  /** The effects of the first two boots of a fresh node when nothing fails. */
  lemma FreshNodeTwoCleanBoots()
    ensures Life(FRESH, [CLEAN, CLEAN]) ==
            Disk(ALL_MARKERS, true, [Format, Mount, RebootRequest, SetNodeIP, Mount])
  {
    assert [CLEAN, CLEAN][..1] == [CLEAN] && [CLEAN][..0] == [];
    assert Boot(FRESH, CLEAN).log == [Format, Mount, RebootRequest];
    assert Life(FRESH, [CLEAN]) == Boot(FRESH, CLEAN);
  }

  /** A network file cut short by a crash is taken for a marker and never written again. */
  lemma {:induction false} TornNetworkFileIsNeverRepaired(d: Disk, boots: seq<Faults>)
    requires NetConfig in d.markers
    ensures NetConfig in Life(d, boots).markers && Life(d, boots).netComplete == d.netComplete
  {
    if boots != [] { TornNetworkFileIsNeverRepaired(d, boots[..|boots| - 1]); }
  }

  /** A crash in the first write: the node settles, with its node IP set, on a torn network file. */
  lemma TornFileAfterCrash()
    ensures var d := Life(FRESH, [CLEAN.(writeNetwork := Late), CLEAN, CLEAN]);
            d.markers == ALL_MARKERS && !d.netComplete && SetNodeIP in d.log
  {
    var torn := CLEAN.(writeNetwork := Late);
    assert [torn, CLEAN, CLEAN][..2] == [torn, CLEAN];
    LifeOfTwo(FRESH, torn, CLEAN);
    assert Boot(FRESH, torn) == Disk({NetConfig}, false, []);
    CleanBootsAfterTear();
  }

  lemma CleanBootsAfterTear()
    ensures var d := Boot(Boot(Disk({NetConfig}, false, []), CLEAN), CLEAN);
            d == Disk(ALL_MARKERS, false, [Format, Mount, RebootRequest, SetNodeIP, Mount])
  {
    var one := Boot(Disk({NetConfig}, false, []), CLEAN);
    assert one == Disk({NetConfig, PartitionCreated, Rebooted}, false, [Format, Mount, RebootRequest]);
  }

  /** A boot leaves a complete network file exactly when one was there or its own write went
      through; a late failure of that write is the only way to a torn one. */
  lemma NetworkFileCompleteIff(d: Disk, f: Faults)
    requires d.netComplete ==> NetConfig in d.markers
    ensures Boot(d, f).netComplete ==> NetConfig in Boot(d, f).markers
    ensures NetConfig in Boot(d, f).markers && !Boot(d, f).netComplete <==>
            (if NetConfig in d.markers then !d.netComplete
             else KubernetesStep(d, f).ok && f.kernel == Done && NetCheck !in f.lies
                  && f.gatherNetwork == Done && f.writeNetwork == Late)
  {
  }

  // ---- Pairing network interfaces with static addresses ----

  datatype StaticIP = StaticIP(address: string, gateway: string, primary: bool)
  datatype Network = Network(dniCount: int, static_: seq<StaticIP>)
  datatype Mapping = Mapping(dni: string, ip: Option<StaticIP>)
  datatype MappingResult = Mapped(mappings: seq<Mapping>) | NilNetwork

  /** The network file agrees with the interfaces found. */
  predicate Agrees(dnis: seq<string>, network: Network) {
    |dnis| == network.dniCount && !(0 < |network.static_| < network.dniCount)
  }

  /** Both disagreement branches wrap a nil error, which stays nil: they return no mapping
      and no error. So every interface is mapped exactly when the file agrees (or there is
      no interface at all), and a missing network file is a nil dereference. */
  method NetworkMapping(dnis: seq<string>, network: Option<Network>) returns (r: MappingResult)
    ensures r.NilNetwork? <==> network.None?
    ensures r.Mapped? ==> (|r.mappings| == |dnis| <==> Agrees(dnis, network.value) || dnis == [])
    ensures r.Mapped? && !Agrees(dnis, network.value) ==> r.mappings == []
    ensures r.Mapped? && Agrees(dnis, network.value) ==>
              forall i :: 0 <= i < |dnis| ==>
                && r.mappings[i].dni == dnis[i]
                && r.mappings[i].ip == if network.value.static_ == [] then None else Some(network.value.static_[i])
  {
    if network.None? { return NilNetwork; }
    var net := network.value;
    if |dnis| != net.dniCount { return Mapped([]); }
    if |net.static_| > 0 && |net.static_| < net.dniCount { return Mapped([]); }
    var m := [];
    for i := 0 to |dnis|
      invariant |m| == i
      invariant forall k :: 0 <= k < i ==>
        m[k] == Mapping(dnis[k], if net.static_ == [] then None else Some(net.static_[k]))
    {
      var n := Mapping(dnis[i], None);
      if |net.static_| > 0 { n := n.(ip := Some(net.static_[i])); }
      m := m + [n];
    }
    return Mapped(m);
  }

  /** Two interfaces found, a network file that counts one: no error, and nothing is configured. */
  method MismatchIsSilent() returns (r: MappingResult)
    ensures r == Mapped([])
  {
    r := NetworkMapping(["eth1", "eth2"], Some(Network(1, [])));
  }

  /** Two interfaces, one static address: the unsupported mix is not reported either. */
  method MixIsSilent() returns (r: MappingResult)
    ensures r == Mapped([])
  {
    r := NetworkMapping(["eth1", "eth2"], Some(Network(2, [StaticIP("10.0.0.2", "10.0.0.1", true)])));
  }
}
