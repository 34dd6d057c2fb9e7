// The two blocklist matchers: the device check of
// server/middleware/checkBlocked.js and the register-time check local to
// server/routes/auth.js. Both ask the BlockedUser collection for one record
// matching any of several criteria and answer 403 when one exists.
//
// A request field the client did not send is `None`. A criterion compares
// one field of the request with the same field of a record and fires only
// when both are present and equal.

module Blocklist {
  import opened Wrappers
  import opened Seqs

  /** The `deviceInfo` object a client sends (client/src/utils/deviceInfo.js builds it). */
  datatype Device = Device(
    browser: Option<string>, os: Option<string>, language: Option<string>,
    vendor: Option<string>, screenResolution: Option<string>, colorDepth: Option<int>,
    timezone: Option<string>, networkDevices: Option<seq<string>>,
    hardwareId: Option<string>, gpuRenderer: Option<string>, gpuVendor: Option<string>,
    cores: Option<int>)

  /** A stored BlockedUser document (server/models/Admin.js:5-28). */
  datatype BlockRecord = BlockRecord(
    id: Id, email: string, reason: Option<string>,
    ipAddress: Option<string>, userAgent: Option<string>, device: Device)

  /** One query criterion `{ path: value }`: both sides present and equal. */
  predicate Same<T(==)>(asked: Option<T>, stored: Option<T>) {
    asked.Some? && stored.Some? && asked.value == stored.value
  }

  /** `deviceInfo?.x` on a request that may lack `deviceInfo`. */
  function Field<T>(d: Option<Device>, get: Device -> Option<T>): Option<T> {
    match d
    case None => None
    case Some(v) => get(v)
  }

  /** What the middleware answers: let the request through, or refuse it. */
  datatype Gate = Next | Refuse(status: int, error: string, message: string)

  // ---------------------------------------------------------------------------
  // server/middleware/checkBlocked.js
  // ---------------------------------------------------------------------------

  /** The values checkBlocked.js reads from the request. */
  datatype Attempt = Attempt(email: Option<string>, ipAddress: Option<string>, device: Option<Device>)

  /** The four-field device fingerprint clause: every field must match in the same record. */
  predicate FingerprintMatch(r: BlockRecord, a: Attempt) {
    Same(Field(a.device, (v: Device) => v.gpuRenderer), r.device.gpuRenderer)
    && Same(Field(a.device, (v: Device) => v.gpuVendor), r.device.gpuVendor)
    && Same(Field(a.device, (v: Device) => v.screenResolution), r.device.screenResolution)
    && Same(Field(a.device, (v: Device) => v.cores), r.device.cores)
  }

  /** checkBlocked.js:12-24: the `$or` of email, IP address, hardware id and the fingerprint clause. */
  predicate DeviceMatch(r: BlockRecord, a: Attempt) {
    Same(a.email, Some(r.email))
    || Same(a.ipAddress, r.ipAddress)
    || Same(Field(a.device, (v: Device) => v.hardwareId), r.device.hardwareId)
    || FingerprintMatch(r, a)
  }

  predicate DeviceBlocked(list: seq<BlockRecord>, a: Attempt) {
    exists i :: 0 <= i < |list| && DeviceMatch(list[i], a)
  }

  /** checkBlocked.js:11-41: `findOne` with the `$or`, then 403 or `next()`. */
  function CheckDevice(list: seq<BlockRecord>, a: Attempt): (g: Gate)
    ensures g.Next? <==> !DeviceBlocked(list, a)
    ensures g.Refuse? ==> g.status == 403
  {
    match IndexWhere(list, (r: BlockRecord) => DeviceMatch(r, a))
    case None => Next
    case Some(i) =>
      Refuse(403, "Account creation not allowed", "This device has been blocked by an administrator")
  }

  /** Each single criterion is enough on its own (checkBlocked.js:13-15). */
  lemma SingleCriterionBlocks(list: seq<BlockRecord>, a: Attempt, i: nat)
    requires i < |list|
    requires Same(a.email, Some(list[i].email))
      || Same(a.ipAddress, list[i].ipAddress)
      || Same(Field(a.device, (v: Device) => v.hardwareId), list[i].device.hardwareId)
    ensures CheckDevice(list, a).Refuse?
  {
    assert DeviceMatch(list[i], a);
  }

  /** The fingerprint clause blocks when one record matches all four fields (checkBlocked.js:16-23). */
  lemma FingerprintBlocks(list: seq<BlockRecord>, a: Attempt, i: nat)
    requires i < |list| && FingerprintMatch(list[i], a)
    ensures CheckDevice(list, a).Refuse?
  {
    assert DeviceMatch(list[i], a);
  }

  /**
   * An example: two records that share the fingerprint only between them
   * block nothing, since the renderer and vendor of one and the screen and
   * cores of the other do not make a match. In general a list blocks
   * exactly when one record meets a criterion on its own (the contract of
   * `CheckDevice`).
   */
  lemma SplitFingerprintPasses()
    ensures
      var none := Device(None, None, None, None, None, None, None, None, None, None, None, None);
      var dev := none.(gpuRenderer := Some("R"), gpuVendor := Some("V"), screenResolution := Some("1920x1080"), cores := Some(8));
      var a := Attempt(Some("a@b.cd"), Some("1.1.1.1"), Some(dev));
      var r1 := BlockRecord("r1", "x@y.zz", None, None, None, none.(gpuRenderer := Some("R"), gpuVendor := Some("V")));
      var r2 := BlockRecord("r2", "w@y.zz", None, None, None, none.(screenResolution := Some("1920x1080"), cores := Some(8)));
      CheckDevice([r1, r2], a) == Next
  {
    var none := Device(None, None, None, None, None, None, None, None, None, None, None, None);
    var dev := none.(gpuRenderer := Some("R"), gpuVendor := Some("V"), screenResolution := Some("1920x1080"), cores := Some(8));
    var a := Attempt(Some("a@b.cd"), Some("1.1.1.1"), Some(dev));
    var r1 := BlockRecord("r1", "x@y.zz", None, None, None, none.(gpuRenderer := Some("R"), gpuVendor := Some("V")));
    var r2 := BlockRecord("r2", "w@y.zz", None, None, None, none.(screenResolution := Some("1920x1080"), cores := Some(8)));
    assert !DeviceMatch(r1, a) && !DeviceMatch(r2, a);
    assert forall i :: 0 <= i < 2 ==> [r1, r2][i] == r1 || [r1, r2][i] == r2;
  }

  /** With an empty blocklist every request goes through. */
  lemma EmptyListLetsThrough(a: Attempt)
    ensures CheckDevice([], a) == Next
  {
  }

  /** Blocking is monotone: a list that holds every record of `list` blocks whatever `list` blocks. */
  lemma DeviceBlockedMonotone(list: seq<BlockRecord>, more: seq<BlockRecord>, a: Attempt)
    requires forall r :: r in list ==> r in more
    requires CheckDevice(list, a).Refuse?
    ensures CheckDevice(more, a).Refuse?
  {
    var i :| 0 <= i < |list| && DeviceMatch(list[i], a);
    assert list[i] in more;
    var j :| 0 <= j < |more| && more[j] == list[i];
  }

  // ---------------------------------------------------------------------------
  // server/routes/auth.js:11-39, the register-time matcher
  // ---------------------------------------------------------------------------

  /** The values the register check reads: body email, user-agent header, body `deviceInfo`. */
  datatype Registration = Registration(email: Option<string>, userAgent: Option<string>, device: Option<Device>)

  /** auth.js:14 and 22: a missing `deviceInfo` or `networkDevices` is empty. */
  function NetworkDevices(q: Registration): seq<string> {
    match q.device
    case None => []
    case Some(v) => v.networkDevices.GetOr([])
  }

  /** `{ 'deviceInfo.networkDevices': { $in: ids } }`: the stored array shares an element with `ids`. */
  predicate SharesDevice(stored: Option<seq<string>>, ids: seq<string>) {
    exists k :: 0 <= k < |ids| && stored.Some? && ids[k] in stored.value
  }

  /** auth.js:17-24: email, user-agent, browser, or one shared network device. */
  predicate RegisterMatch(r: BlockRecord, q: Registration) {
    Same(q.email, Some(r.email))
    || Same(q.userAgent, r.userAgent)
    || Same(Field(q.device, (v: Device) => v.browser), r.device.browser)
    || SharesDevice(r.device.networkDevices, NetworkDevices(q))
  }

  predicate RegisterBlocked(list: seq<BlockRecord>, q: Registration) {
    exists i :: 0 <= i < |list| && RegisterMatch(list[i], q)
  }

  /** auth.js:26-34: 403 when a record matches, `next()` otherwise. */
  function CheckRegistration(list: seq<BlockRecord>, q: Registration): (g: Gate)
    ensures g.Next? <==> !RegisterBlocked(list, q)
    ensures g.Refuse? ==> g.status == 403
  {
    match IndexWhere(list, (r: BlockRecord) => RegisterMatch(r, q))
    case None => Next
    case Some(i) =>
      Refuse(403, "Account creation not allowed", "This device or email has been blocked by an administrator")
  }

  /** Without network devices to offer, the `$in` criterion never fires, whatever the records hold. */
  lemma NoDevicesNoNetworkMatch(list: seq<BlockRecord>, q: Registration)
    requires NetworkDevices(q) == []
    ensures CheckRegistration(list, q).Refuse? <==>
      exists i :: 0 <= i < |list|
        && (Same(q.email, Some(list[i].email)) || Same(q.userAgent, list[i].userAgent)
            || Same(Field(q.device, (v: Device) => v.browser), list[i].device.browser))
  {
  }

  /** One shared network device in any record is enough. */
  lemma SharedDeviceBlocks(list: seq<BlockRecord>, q: Registration, i: nat, id: string)
    requires i < |list| && id in NetworkDevices(q)
    requires list[i].device.networkDevices.Some? && id in list[i].device.networkDevices.value
    ensures CheckRegistration(list, q).Refuse?
  {
    var ids := NetworkDevices(q);
    var k :| 0 <= k < |ids| && ids[k] == id;
    assert SharesDevice(list[i].device.networkDevices, ids);
    assert RegisterMatch(list[i], q);
  }

  lemma RegisterBlockedMonotone(list: seq<BlockRecord>, more: seq<BlockRecord>, q: Registration)
    requires forall r :: r in list ==> r in more
    requires CheckRegistration(list, q).Refuse?
    ensures CheckRegistration(more, q).Refuse?
  {
    var i :| 0 <= i < |list| && RegisterMatch(list[i], q);
    assert list[i] in more;
    var j :| 0 <= j < |more| && more[j] == list[i];
  }

  // ---------------------------------------------------------------------------
  // The records server/routes/admin.js:101-113 creates
  // ---------------------------------------------------------------------------

  /** `a || b` on an optional string: an absent or empty value falls back. */
  function OrElse(a: Option<string>, b: Option<string>): (r: Option<string>)
    ensures a.Some? && a.value != "" ==> r == a
    ensures (a.None? || a.value == "") ==> r == b
  {
    if a.Some? && a.value != "" then a else b
  }

  /**
   * The BlockedUser document saved by `/block-user`: the spread `deviceInfo`
   * with browser and OS defaulted, kept only in the paths the schema
   * declares, so the hardware fields are dropped.
   */
  function AdminRecord(id: Id, email: string, reason: Option<string>, ip: Option<string>,
                       userAgent: Option<string>, d: Device): (r: BlockRecord)
    ensures r.email == email && r.ipAddress == ip && r.userAgent == userAgent
    ensures r.device.browser == OrElse(d.browser, userAgent)
    ensures r.device.os == OrElse(d.os, Some("Unknown"))
    ensures r.device.hardwareId.None? && r.device.gpuRenderer.None? && r.device.gpuVendor.None? && r.device.cores.None?
    ensures r.device.networkDevices == d.networkDevices && r.device.screenResolution == d.screenResolution
  {
    BlockRecord(id, email, reason, ip, userAgent,
      d.(browser := OrElse(d.browser, userAgent), os := OrElse(d.os, Some("Unknown")),
         hardwareId := None, gpuRenderer := None, gpuVendor := None, cores := None))
  }

  /**
   * Against the records the admin panel creates, checkBlocked.js can only
   * match on email or IP address: the hardware criteria look for paths the
   * schema never stores.
   */
  lemma AdminRecordDeviceMatch(id: Id, email: string, reason: Option<string>, ip: Option<string>,
                               userAgent: Option<string>, d: Device, a: Attempt)
    ensures DeviceMatch(AdminRecord(id, email, reason, ip, userAgent, d), a)
      <==> Same(a.email, Some(email)) || Same(a.ipAddress, ip)
  {
  }
}
