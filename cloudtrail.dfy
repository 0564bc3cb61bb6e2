/**
 * The CloudTrail event normaliser (services/cloudtrail_functions.py): the
 * "important" event names per resource type, the resource id and the
 * change description extracted from one parsed event, the per-event loop
 * that keeps important events and names their actor, and the idempotent
 * store of normalised events keyed by event id.
 */
module CloudTrail {
  import opened Text
  import opened Values
  import opened Store

  const ImportantEc2Events: set<string> := {
    "StartInstances", "StopInstances", "RebootInstances", "TerminateInstances",
    "ModifyInstanceAttribute", "CreateTags", "DeleteTags", "RunInstances",
    "AttachVolume", "DetachVolume"
  }

  const ImportantRdsEvents: set<string> := {
    "CreateDBInstance", "DeleteDBInstance", "ModifyDBInstance", "RebootDBInstance",
    "StartDBInstance", "StopDBInstance", "RestoreDBInstanceFromDBSnapshot",
    "CreateDBSnapshot", "DeleteDBSnapshot", "AddTagsToResource", "RemoveTagsFromResource"
  }

  const ImportantVpcEvents: set<string> := {
    "CreateVpc", "DeleteVpc", "ModifyVpcAttribute", "CreateSubnet", "DeleteSubnet",
    "ModifySubnetAttribute", "CreateRouteTable", "DeleteRouteTable", "CreateRoute",
    "DeleteRoute", "CreateInternetGateway", "DeleteInternetGateway", "AttachInternetGateway",
    "DetachInternetGateway", "CreateNatGateway", "DeleteNatGateway"
  }

  const InstanceLifecycle: set<string> := {"StartInstances", "StopInstances", "RebootInstances", "TerminateInstances"}
  const DbLifecycle: set<string> := {"StartDBInstance", "StopDBInstance", "RebootDBInstance"}
  const TagEvents: set<string> := {"AddTagsToResource", "RemoveTagsFromResource"}
  const GatewayAttachment: set<string> := {"AttachInternetGateway", "DetachInternetGateway"}

  /** The request keys `ModifyInstanceAttribute` and `ModifyVpcAttribute` do not copy. */
  const Ec2Identifying: set<string> := {"instanceId", "attribute", "value"}
  const VpcIdentifying: set<string> := {"vpcId", "attribute"}

  /** The request keys `ModifyDBInstance` copies when present, in this order. */
  const DbModifiable: seq<string> := ["dbInstanceClass", "allocatedStorage", "multiAZ", "engineVersion"]

  /** `event_name in [...]`. */
  predicate NameIn(name: Value, names: set<string>) {
    name.Text? && name.s in names
  }

  /** A resource id found by one rule, or `None` to try the next rule. */
  type Found = Result<Option<Value>>

  /** The first rule that finds something wins; a raise stops the search. */
  function OrElse(a: Found, b: Found): Found {
    match a
    case Raised => Raised
    case Ok(Some(_)) => a
    case Ok(None) => b
  }

  /** `if key in d: return d[key]`. */
  function Field(d: Value, key: string): Found
    requires |key| > 0
  {
    var present :- In(key, d);
    if !present then Ok(None)
    else
      var v :- Index(d, key);
      Ok(Some(v))
  }

  /** `if key in d and d[key]: return d[key]`. */
  function TruthyField(d: Value, key: string): Found
    requires |key| > 0
  {
    var v :- Field(d, key);
    Ok(if v.Some? && Truthy(v.value) then v else None)
  }

  /** `if obj in res and key in res[obj]: return res[obj][key]`. */
  function NestedField(res: Value, obj: string, key: string): Found
    requires |obj| > 0 && |key| > 0
  {
    var present :- In(obj, res);
    if !present then Ok(None)
    else
      var inner :- Index(res, obj);
      Field(inner, key)
  }

  /** Request first, then response, for one VPC-family id. */
  function VpcRule(req: Value, res: Value, obj: string, key: string): Found
    requires |obj| > 0 && |key| > 0
  {
    OrElse(Field(req, key), NestedField(res, obj, key))
  }

  /** `instancesSet.items[0].instanceId` (default "unknown") when the item list is non-empty. */
  function FirstInstanceId(req: Value): Found {
    var instancesSet :- Get(req, "instancesSet", Dict([]));
    var instances :- Get(instancesSet, "items", List([]));
    if !Truthy(instances) then Ok(None)
    else
      var n :- Len(instances);
      if n == 0 then Ok(None)
      else
        var first :- First(instances);
        var id :- Get(first, "instanceId", Unknown);
        Ok(Some(id))
  }

  /** Segment 6 of a `resourceName` ARN that mentions "rds:db:" and has more than six segments. */
  function TaggedDbId(req: Value): Found {
    var arn :- Get(req, "resourceName", Null);
    if !Truthy(arn) then Ok(None)
    else
      var mentions :- In("rds:db:", arn);
      if !mentions then Ok(None)
      else if !arn.Text? then Raised   // `.split` on a list or dict
      else
        var parts := SplitOn(arn.s, ":");
        Ok(if |parts| > 6 then Some(Text(parts[6])) else None)
  }

  /** `extract_resource_id(event, resource_type)`. */
  function ExtractResourceId(event: Value, rtype: string): Result<Value> {
    if !event.Dict? then Raised
    else
    var req := Get(event, "requestParameters", Dict([])).value;
    var res := Get(event, "responseElements", Dict([])).value;
    var name := Get(event, "eventName", Text("")).value;
    if rtype == "EC2" then
      var lifecycle :- if NameIn(name, InstanceLifecycle) then FirstInstanceId(req) else Ok(None);
      if lifecycle.Some? then Ok(lifecycle.value)
      else if name == Text("ModifyInstanceAttribute") then Get(req, "instanceId", Unknown)
      else
        var found :- OrElse(TruthyField(req, "instanceId"), TruthyField(req, "resourceId"));
        Ok(if found.Some? then found.value else Unknown)
    else if rtype == "RDS" then
      var found :- OrElse(Field(req, "dBInstanceIdentifier"),
                   OrElse(Field(res, "dBInstanceIdentifier"),
                   OrElse(Field(req, "dBSnapshotIdentifier"),
                          if NameIn(name, TagEvents) then TaggedDbId(req) else Ok(None))));
      Ok(if found.Some? then found.value else Unknown)
    else if rtype == "VPC" then
      var found :- OrElse(VpcRule(req, res, "vpc", "vpcId"),
                   OrElse(VpcRule(req, res, "subnet", "subnetId"),
                   OrElse(VpcRule(req, res, "internetGateway", "internetGatewayId"),
                          VpcRule(req, res, "natGateway", "natGatewayId"))));
      Ok(if found.Some? then found.value else Unknown)
    else Ok(Unknown)
  }

  /** A parsed event whose request and response parameters are JSON objects. */
  predicate WellShaped(event: Value) {
    event.Dict? &&
    Get(event, "requestParameters", Dict([])).value.Dict? &&
    Get(event, "responseElements", Dict([])).value.Dict?
  }

  /** With a non-empty instance list, lifecycle events name the first instance ("unknown" if it has no id). */
  lemma LifecycleUsesFirstInstance(event: Value, items: seq<Value>)
    requires WellShaped(event)
    requires NameIn(Get(event, "eventName", Text("")).value, InstanceLifecycle)
    requires var req := Get(event, "requestParameters", Dict([])).value;
             var s := Get(req, "instancesSet", Dict([])).value;
             s.Dict? && Get(s, "items", List([])).value == List(items)
    requires items != [] && items[0].Dict?
    ensures ExtractResourceId(event, "EC2") == Ok(Get(items[0], "instanceId", Unknown).value)
  {
  }

  /**
   * Other EC2 events, and lifecycle events with no instance items: the first
   * truthy of `instanceId`, `resourceId`; `ModifyInstanceAttribute` reads `instanceId` alone.
   */
  lemma Ec2GenericPrecedence(event: Value)
    requires WellShaped(event)
    requires var req := Get(event, "requestParameters", Dict([])).value;
             var s := Get(req, "instancesSet", Dict([])).value;
             !NameIn(Get(event, "eventName", Text("")).value, InstanceLifecycle) ||
             (s.Dict? && Get(s, "items", List([])).value == List([]))
    ensures var req := Get(event, "requestParameters", Dict([])).value;
            var name := Get(event, "eventName", Text("")).value;
            var a := Lookup(req.entries, "instanceId");
            var b := Lookup(req.entries, "resourceId");
            ExtractResourceId(event, "EC2") ==
              if name == Text("ModifyInstanceAttribute") then Ok(if a.Some? then a.value else Unknown)
              else if a.Some? && Truthy(a.value) then Ok(a.value)
              else if b.Some? && Truthy(b.value) then Ok(b.value)
              else Ok(Unknown)
  {
  }

  /** RDS: request instance id, response instance id, snapshot id, then (tag events) the ARN segment. */
  lemma RdsPrecedence(event: Value)
    requires WellShaped(event)
    ensures var req := Get(event, "requestParameters", Dict([])).value;
            var res := Get(event, "responseElements", Dict([])).value;
            var name := Get(event, "eventName", Text("")).value;
            var r := ExtractResourceId(event, "RDS");
            (HasKey(req.entries, "dBInstanceIdentifier") ==>
               r == Ok(Lookup(req.entries, "dBInstanceIdentifier").value)) &&
            (!HasKey(req.entries, "dBInstanceIdentifier") && HasKey(res.entries, "dBInstanceIdentifier") ==>
               r == Ok(Lookup(res.entries, "dBInstanceIdentifier").value)) &&
            (!HasKey(req.entries, "dBInstanceIdentifier") && !HasKey(res.entries, "dBInstanceIdentifier") &&
             HasKey(req.entries, "dBSnapshotIdentifier") ==>
               r == Ok(Lookup(req.entries, "dBSnapshotIdentifier").value)) &&
            (!HasKey(req.entries, "dBInstanceIdentifier") && !HasKey(res.entries, "dBInstanceIdentifier") &&
             !HasKey(req.entries, "dBSnapshotIdentifier") && !NameIn(name, TagEvents) ==>
               r == Ok(Unknown))
  {
  }

  /** A tag event on `arn:aws:rds:<region>:<account>:db:<name>` is attributed to `<name>`. */
  lemma TaggedArnSegment(event: Value, arn: string)
    requires WellShaped(event)
    requires NameIn(Get(event, "eventName", Text("")).value, TagEvents)
    requires var req := Get(event, "requestParameters", Dict([])).value;
             var res := Get(event, "responseElements", Dict([])).value;
             !HasKey(req.entries, "dBInstanceIdentifier") && !HasKey(res.entries, "dBInstanceIdentifier") &&
             !HasKey(req.entries, "dBSnapshotIdentifier") && Lookup(req.entries, "resourceName") == Some(Text(arn))
    requires Contains(arn, "rds:db:")
    ensures var parts := SplitOn(arn, ":");
            ExtractResourceId(event, "RDS") == Ok(if |parts| > 6 then Text(parts[6]) else Unknown)
  {
  }

  /** VPC: vpc, subnet, internet gateway, NAT gateway, in that order; the first rule that finds an id wins. */
  lemma VpcPrecedence(event: Value)
    requires WellShaped(event)
    ensures var req := Get(event, "requestParameters", Dict([])).value;
            var res := Get(event, "responseElements", Dict([])).value;
            var a := VpcRule(req, res, "vpc", "vpcId");
            var b := VpcRule(req, res, "subnet", "subnetId");
            var c := VpcRule(req, res, "internetGateway", "internetGatewayId");
            var d := VpcRule(req, res, "natGateway", "natGatewayId");
            var r := ExtractResourceId(event, "VPC");
            (a.Ok? && a.value.Some? ==> r == Ok(a.value.value)) &&
            (a == Ok(None) && b.Ok? && b.value.Some? ==> r == Ok(b.value.value)) &&
            (a == Ok(None) && b == Ok(None) && c.Ok? && c.value.Some? ==> r == Ok(c.value.value)) &&
            (a == Ok(None) && b == Ok(None) && c == Ok(None) && d.Ok? && d.value.Some? ==> r == Ok(d.value.value)) &&
            (a == Ok(None) && b == Ok(None) && c == Ok(None) && d == Ok(None) ==> r == Ok(Unknown))
  {
  }

  /** Within one VPC rule the request key beats the response object, which is read only when the key is absent. */
  lemma VpcRuleRequestFirst(req: Value, res: Value, obj: string, key: string)
    requires req.Dict? && res.Dict? && |obj| > 0 && |key| > 0
    ensures HasKey(req.entries, key) ==> VpcRule(req, res, obj, key) == Ok(Some(Lookup(req.entries, key).value))
    ensures !HasKey(req.entries, key) && !HasKey(res.entries, obj) ==> VpcRule(req, res, obj, key) == Ok(None)
    ensures !HasKey(req.entries, key) && HasKey(res.entries, obj) ==>
            var inner := Lookup(res.entries, obj).value;
            inner.Dict? && HasKey(inner.entries, key) ==>
              VpcRule(req, res, obj, key) == Ok(Some(Lookup(inner.entries, key).value))
  {
  }

  /** A resource type other than EC2, RDS and VPC is never attributed. */
  lemma UnrecognisedTypeUnknown(event: Value, rtype: string)
    requires event.Dict?
    requires rtype !in {"EC2", "RDS", "VPC"}
    ensures ExtractResourceId(event, rtype) == Ok(Unknown)
  {
  }

  /** `{"eventType": name, "details": {...}}`. */
  datatype EventChanges = EventChanges(eventType: Value, details: seq<(string, Value)>)

  /** The JSON object `json.dumps` stores. */
  function ChangesJson(c: EventChanges): Value {
    Dict([("eventType", c.eventType), ("details", Dict(c.details))])
  }

  /** `for key, value in entries: if key not in excluded: details[key] = value`, from `details`. */
  function CopiedExcept(details: seq<(string, Value)>, entries: seq<(string, Value)>, excluded: set<string>)
    : seq<(string, Value)>
    decreases |entries|
  {
    if entries == [] then details
    else
      var rest := CopiedExcept(details, entries[..|entries| - 1], excluded);
      var (key, value) := entries[|entries| - 1];
      if key in excluded then rest else Put(rest, key, value)
  }

  /** `for key in keys: if key in req: details[key] = req[key]`, from `details`. */
  function CopiedPresent(details: seq<(string, Value)>, req: Value, keys: seq<string>)
    : Result<seq<(string, Value)>>
    requires forall k :: 0 <= k < |keys| ==> |keys[k]| > 0
    decreases |keys|
  {
    if keys == [] then Ok(details)
    else
      var rest :- CopiedPresent(details, req, keys[..|keys| - 1]);
      var key := keys[|keys| - 1];
      var present :- In(key, req);
      if !present then Ok(rest)
      else
        var v :- Index(req, key);
        Ok(Put(rest, key, v))
  }

  /** A raise while copying stops the copy. */
  lemma {:induction false} CopiedPresentRaises(details: seq<(string, Value)>, req: Value, keys: seq<string>, n: nat)
    requires forall k :: 0 <= k < |keys| ==> |keys[k]| > 0
    requires n <= |keys| && CopiedPresent(details, req, keys[..n]) == Raised
    ensures CopiedPresent(details, req, keys) == Raised
    decreases |keys|
  {
    if n < |keys| {
      var init := keys[..|keys| - 1];
      assert init[..n] == keys[..n];
      CopiedPresentRaises(details, req, init, n);
    } else {
      assert keys[..n] == keys;
    }
  }

  /** `details.update({...})` on the empty dict, then `details[key] = res[obj].get(key)` when `obj in res`. */
  function WithNested(details: seq<(string, Value)>, res: Value, obj: string, key: string)
    : Result<seq<(string, Value)>>
    requires |obj| > 0
  {
    var present :- In(obj, res);
    if !present then Ok(details)
    else
      var inner :- Index(res, obj);
      var v :- Get(inner, key, Null);
      Ok(Put(details, key, v))
  }

  /** `[(k, req.get(k)) for k in keys]`. */
  function Gets(req: Value, keys: seq<string>): Result<seq<(string, Value)>>
    decreases |keys|
  {
    if keys == [] then Ok([])
    else
      var v :- Get(req, keys[0], Null);
      var rest :- Gets(req, keys[1..]);
      Ok([(keys[0], v)] + rest)
  }

  /** The `details` part of `extract_changes`. */
  function DetailsOf(name: Value, req: Value, res: Value, rtype: string): Result<seq<(string, Value)>> {
    if rtype == "EC2" then
      if NameIn(name, InstanceLifecycle) then
        var instancesSet :- Get(res, "instancesSet", Dict([]));
        var instances :- Get(instancesSet, "items", List([]));
        if !Truthy(instances) then Ok([])
        else
          var first :- First(instances);
          var state :- Get(first, "currentState", Dict([]));
          var stateName :- Get(state, "name", Null);
          Ok([("state", stateName)])
      else if name == Text("ModifyInstanceAttribute") then
        if req.Dict? then Ok(CopiedExcept([], req.entries, Ec2Identifying)) else Raised
      else Ok([])
    else if rtype == "RDS" then
      if name == Text("CreateDBInstance") then
        Gets(req, ["engine", "dbInstanceClass", "allocatedStorage", "multiAZ"])
      else if name == Text("ModifyDBInstance") then
        CopiedPresent([], req, DbModifiable)
      else if NameIn(name, DbLifecycle) then
        Ok([("action", Text(RemoveAll(name.s, "DBInstance")))])
      else if NameIn(name, TagEvents) then
        var tags :- Field(req, "tags");
        Ok(if tags.Some? then [("tags", tags.value)] else [])
      else Ok([])
    else if rtype == "VPC" then
      if name == Text("CreateVpc") then
        var cidr :- Get(req, "cidrBlock", Null);
        var tenancy :- Get(req, "instanceTenancy", Text("default"));
        WithNested([("cidrBlock", cidr), ("instanceTenancy", tenancy)], res, "vpc", "vpcId")
      else if name == Text("ModifyVpcAttribute") then
        if req.Dict? then Ok(CopiedExcept([], req.entries, VpcIdentifying)) else Raised
      else if name == Text("CreateSubnet") then
        var d :- Gets(req, ["vpcId", "cidrBlock", "availabilityZone"]);
        WithNested(d, res, "subnet", "subnetId")
      else if name == Text("CreateInternetGateway") then
        WithNested([], res, "internetGateway", "internetGatewayId")
      else if NameIn(name, GatewayAttachment) then
        Gets(req, ["vpcId", "internetGatewayId"])
      else if name == Text("CreateNatGateway") then
        var d :- Gets(req, ["subnetId", "allocationId"]);
        WithNested(d, res, "natGateway", "natGatewayId")
      else Ok([])
    else Ok([])
  }

  /** `extract_changes(event, resource_type)` as a value. */
  function ChangesOf(event: Value, rtype: string): Result<EventChanges> {
    if !event.Dict? then Raised
    else
    var name := Get(event, "eventName", Text("")).value;
    var req := Get(event, "requestParameters", Dict([])).value;
    var res := Get(event, "responseElements", Dict([])).value;
    var details :- DetailsOf(name, req, res, rtype);
    Ok(EventChanges(name, details))
  }

  /** `extract_changes`: builds `details` step by step, as the source does. */
  method ExtractChanges(event: Value, rtype: string) returns (r: Result<EventChanges>)
    ensures r == ChangesOf(event, rtype)
  {
    if !event.Dict? {
      return Raised;
    }
    var name := Get(event, "eventName", Text("")).value;
    var req := Get(event, "requestParameters", Dict([])).value;
    var res := Get(event, "responseElements", Dict([])).value;
    var details: seq<(string, Value)> := [];
    if rtype == "EC2" && name == Text("ModifyInstanceAttribute") {
      if !req.Dict? {
        return Raised;
      }
      details := CopyExcept(req.entries, Ec2Identifying);
    } else if rtype == "RDS" && name == Text("ModifyDBInstance") {
      assert DetailsOf(name, req, res, rtype) == CopiedPresent([], req, DbModifiable);
      var copied := CopyPresent(req);
      if copied.Raised? {
        return Raised;
      }
      details := copied.value;
    } else if rtype == "VPC" && name == Text("ModifyVpcAttribute") {
      if !req.Dict? {
        return Raised;
      }
      details := CopyExcept(req.entries, VpcIdentifying);
    } else {
      details :- DetailsOf(name, req, res, rtype);
    }
    return Ok(EventChanges(name, details));
  }

  /** `for key in [...]: if key in req: details[key] = req[key]` over the modifiable database settings. */
  method CopyPresent(req: Value) returns (r: Result<seq<(string, Value)>>)
    ensures r == CopiedPresent([], req, DbModifiable)
  {
    var details: seq<(string, Value)> := [];
    for i := 0 to |DbModifiable|
      invariant CopiedPresent([], req, DbModifiable[..i]) == Ok(details)
    {
      assert DbModifiable[..i + 1][..i] == DbModifiable[..i];
      var key := DbModifiable[i];
      var present := In(key, req);
      if present.Raised? {
        CopiedPresentRaises([], req, DbModifiable, i + 1);
        return Raised;
      }
      if present.value {
        var v := Index(req, key);
        if v.Raised? {
          CopiedPresentRaises([], req, DbModifiable, i + 1);
          return Raised;
        }
        details := Put(details, key, v.value);
      }
    }
    assert DbModifiable[..|DbModifiable|] == DbModifiable;
    return Ok(details);
  }

  /** `for key, value in req.items(): if key not in excluded: details[key] = value`. */
  method CopyExcept(entries: seq<(string, Value)>, excluded: set<string>) returns (details: seq<(string, Value)>)
    ensures details == CopiedExcept([], entries, excluded)
  {
    details := [];
    for i := 0 to |entries|
      invariant details == CopiedExcept([], entries[..i], excluded)
    {
      assert entries[..i + 1][..i] == entries[..i];
      var (key, value) := entries[i];
      if key !in excluded {
        details := Put(details, key, value);
      }
    }
    assert entries[..|entries|] == entries;
  }

  /** Python dicts have distinct keys. */
  predicate DistinctKeys(entries: seq<(string, Value)>) {
    forall i, j :: 0 <= i < j < |entries| ==> entries[i].0 != entries[j].0
  }

  /** The copy holds every request key outside `excluded`, with the request's value, and nothing else. */
  lemma {:induction false} CopiedExceptContents(entries: seq<(string, Value)>, excluded: set<string>, key: string)
    requires DistinctKeys(entries)
    ensures Lookup(CopiedExcept([], entries, excluded), key) ==
            if key in excluded then None else Lookup(entries, key)
    decreases |entries|
  {
    if entries != [] {
      var init := entries[..|entries| - 1];
      var last := entries[|entries| - 1];
      assert forall i :: 0 <= i < |init| ==> init[i] == entries[i];
      assert entries == init + [last];
      assert DistinctKeys(init);
      var rest := CopiedExcept([], init, excluded);
      assert CopiedExcept([], entries, excluded) == if last.0 in excluded then rest else Put(rest, last.0, last.1);
      CopiedExceptContents(init, excluded, key);
      LookupSnoc(init, last, key);
    }
  }

  /** Looking up in a dict with one more, new, entry at the end. */
  lemma {:induction false} LookupSnoc(init: seq<(string, Value)>, last: (string, Value), key: string)
    requires forall i :: 0 <= i < |init| ==> init[i].0 != last.0
    ensures Lookup(init + [last], key) ==
            if HasKey(init, key) then Lookup(init, key) else if key == last.0 then Some(last.1) else None
    decreases |init|
  {
    if init != [] {
      assert (init + [last])[1..] == init[1..] + [last];
      LookupSnoc(init[1..], last, key);
    } else {
      assert init + [last] == [last];
    }
  }

  /** `ModifyInstanceAttribute` copies every request parameter except `instanceId`, `attribute` and `value`. */
  lemma ModifyInstanceAttributeCopies(event: Value, key: string)
    requires WellShaped(event)
    requires Get(event, "eventName", Text("")).value == Text("ModifyInstanceAttribute")
    requires DistinctKeys(Get(event, "requestParameters", Dict([])).value.entries)
    ensures var req := Get(event, "requestParameters", Dict([])).value;
            ChangesOf(event, "EC2").Ok? &&
            Lookup(ChangesOf(event, "EC2").value.details, key) ==
              if key in Ec2Identifying then None else Lookup(req.entries, key)
  {
    var name := Get(event, "eventName", Text("")).value;
    var req := Get(event, "requestParameters", Dict([])).value;
    var res := Get(event, "responseElements", Dict([])).value;
    assert !NameIn(name, InstanceLifecycle);
    assert DetailsOf(name, req, res, "EC2") == Ok(CopiedExcept([], req.entries, Ec2Identifying));
    CopiedExceptContents(req.entries, Ec2Identifying, key);
  }

  /** The event type is always the event name. */
  lemma EventTypeIsName(event: Value, rtype: string)
    requires ChangesOf(event, rtype).Ok?
    ensures ChangesOf(event, rtype).value.eventType == Get(event, "eventName", Text("")).value
  {
  }

  /** An event none of the rules lists leaves `details` empty. */
  lemma UnlistedEventNoDetails(event: Value, rtype: string)
    requires WellShaped(event)
    requires var name := Get(event, "eventName", Text("")).value;
             !name.Text? || name.s !in (ImportantEc2Events + ImportantRdsEvents + ImportantVpcEvents)
    ensures ChangesOf(event, rtype) == Ok(EventChanges(Get(event, "eventName", Text("")).value, []))
  {
    var name := Get(event, "eventName", Text("")).value;
    var req := Get(event, "requestParameters", Dict([])).value;
    var res := Get(event, "responseElements", Dict([])).value;
    assert !NameIn(name, InstanceLifecycle) && !NameIn(name, DbLifecycle);
    assert !NameIn(name, TagEvents) && !NameIn(name, GatewayAttachment);
    assert name != Text("ModifyInstanceAttribute") && name != Text("CreateDBInstance") &&
           name != Text("ModifyDBInstance");
    assert name != Text("CreateVpc") && name != Text("ModifyVpcAttribute") && name != Text("CreateSubnet") &&
           name != Text("CreateInternetGateway") && name != Text("CreateNatGateway");
    assert DetailsOf(name, req, res, rtype) == Ok([]);
  }

  /**
   * Start/Stop/RebootDBInstance record only the action, the event name with
   * "DBInstance" removed: "Start", "Stop" or "Reboot".
   */
  lemma DbLifecycleAction(event: Value)
    requires WellShaped(event)
    requires NameIn(Get(event, "eventName", Text("")).value, DbLifecycle)
    ensures var name := Get(event, "eventName", Text("")).value;
            ChangesOf(event, "RDS") == Ok(EventChanges(name, [("action", Text(RemoveAll(name.s, "DBInstance")))]))
    ensures var name := Get(event, "eventName", Text("")).value;
            RemoveAll(name.s, "DBInstance") ==
              if name.s == "StartDBInstance" then "Start" else if name.s == "StopDBInstance" then "Stop" else "Reboot"
  {
    var name := Get(event, "eventName", Text("")).value;
    var req := Get(event, "requestParameters", Dict([])).value;
    var res := Get(event, "responseElements", Dict([])).value;
    assert name.s[|name.s| - 1] == 'e' && name.s[1] != 'r' && (name.s[0] == 'S' || name.s[0] == 'R');
    assert name != Text("CreateDBInstance") && name != Text("ModifyDBInstance");
    assert DetailsOf(name, req, res, "RDS") == Ok([("action", Text(RemoveAll(name.s, "DBInstance")))]);
    LifecycleActionNames();
  }

  lemma LifecycleActionNames()
    ensures RemoveAll("StartDBInstance", "DBInstance") == "Start"
    ensures RemoveAll("StopDBInstance", "DBInstance") == "Stop"
    ensures RemoveAll("RebootDBInstance", "DBInstance") == "Reboot"
  {
    StartActionName();
    StopActionName();
    RebootActionName();
  }

  lemma StartActionName()
    ensures RemoveAll("StartDBInstance", "DBInstance") == "Start"
  {
    assert "StartDBInstance" == "Start" + "DBInstance";
    RemoveAllTrailing("Start", "DBInstance");
  }

  lemma StopActionName()
    ensures RemoveAll("StopDBInstance", "DBInstance") == "Stop"
  {
    assert "StopDBInstance" == "Stop" + "DBInstance";
    RemoveAllTrailing("Stop", "DBInstance");
  }

  lemma RebootActionName()
    ensures RemoveAll("RebootDBInstance", "DBInstance") == "Reboot"
  {
    assert "RebootDBInstance" == "Reboot" + "DBInstance";
    RemoveAllTrailing("Reboot", "DBInstance");
  }

  /** `ModifyDBInstance` copies exactly those of its four keys that the request has. */
  lemma {:induction false} ModifyDbCopiesPresent(req: Value, keys: seq<string>, key: string)
    requires req.Dict?
    requires forall k :: 0 <= k < |keys| ==> |keys[k]| > 0
    ensures CopiedPresent([], req, keys).Ok?
    ensures Lookup(CopiedPresent([], req, keys).value, key) ==
            if key in keys && HasKey(req.entries, key) then Lookup(req.entries, key) else None
    decreases |keys|
  {
    if keys != [] {
      var init := keys[..|keys| - 1];
      ModifyDbCopiesPresent(req, init, key);
      assert keys == init + [keys[|keys| - 1]];
    }
  }

  /**
   * `CreateVpc` records the request's CIDR block and tenancy ("default" when
   * it has none) and, when the response carries "vpc", that object's "vpcId"
   * (NULL when absent); a "vpc" that is not a dict makes it raise.
   */
  lemma CreateVpcTenancy(event: Value)
    requires WellShaped(event)
    requires Get(event, "eventName", Text("")).value == Text("CreateVpc")
    ensures var req := Get(event, "requestParameters", Dict([])).value;
            var res := Get(event, "responseElements", Dict([])).value;
            var t := Lookup(req.entries, "instanceTenancy");
            var c := Lookup(req.entries, "cidrBlock");
            var base := [("cidrBlock", if c.Some? then c.value else Null),
                         ("instanceTenancy", if t.Some? then t.value else Text("default"))];
            var vpc := Lookup(res.entries, "vpc");
            ChangesOf(event, "VPC") ==
              if vpc.None? then Ok(EventChanges(Text("CreateVpc"), base))
              else if !vpc.value.Dict? then Raised
              else
                var id := Lookup(vpc.value.entries, "vpcId");
                Ok(EventChanges(Text("CreateVpc"), base + [("vpcId", if id.Some? then id.value else Null)]))
  {
    var name := Get(event, "eventName", Text("")).value;
    var req := Get(event, "requestParameters", Dict([])).value;
    var res := Get(event, "responseElements", Dict([])).value;
    var t := Lookup(req.entries, "instanceTenancy");
    var c := Lookup(req.entries, "cidrBlock");
    var base := [("cidrBlock", if c.Some? then c.value else Null),
                 ("instanceTenancy", if t.Some? then t.value else Text("default"))];
    assert DetailsOf(name, req, res, "VPC") == WithNested(base, res, "vpc", "vpcId");
    assert ChangesOf(event, "VPC") == match WithNested(base, res, "vpc", "vpcId")
                                      case Raised => Raised
                                      case Ok(d) => Ok(EventChanges(name, d));
    WithNestedAppends(base, res, "vpc", "vpcId");
  }

  /** With `key` not yet in `details`, the nested id is appended after them. */
  lemma WithNestedAppends(details: seq<(string, Value)>, res: Value, obj: string, key: string)
    requires |obj| > 0 && res.Dict? && !HasKey(details, key)
    ensures var inner := Lookup(res.entries, obj);
            WithNested(details, res, obj, key) ==
              if inner.None? then Ok(details)
              else if !inner.value.Dict? then Raised
              else
                var id := Lookup(inner.value.entries, key);
                Ok(details + [(key, if id.Some? then id.value else Null)])
  {
    var inner := Lookup(res.entries, obj);
    if inner.Some? && inner.value.Dict? {
      var id := Lookup(inner.value.entries, key);
      PutNewKeyAppends(details, key, if id.Some? then id.value else Null);
    }
  }

  /** One entry of `lookup_events(...)["Events"]`; `detail` is `None` when `json.loads` raises. */
  datatype RawEvent = RawEvent(eventId: Option<string>, eventTime: Option<int>, detail: Option<Value>)

  /** One element of `parsed_events`; `resourceType` is optional for callers outside this loop. */
  datatype ParsedEvent = ParsedEvent(
    eventId: Option<string>, eventTime: Option<int>, eventName: string,
    eventSource: Value, userName: Value, resourceName: Value,
    resourceType: Option<string>, changes: EventChanges, region: string)

  /** `userName or principalId or "unknown"` of `userIdentity`. */
  function ActorOf(detail: Value): (r: Result<Value>)
    ensures detail.Dict? && Get(detail, "userIdentity", Dict([])).value.Dict? ==> r.Ok?
    ensures r.Ok? ==> r.value == Unknown || Truthy(r.value)
  {
    var identity :- Get(detail, "userIdentity", Dict([]));
    if !identity.Dict? then Raised
    else Ok(Or(Get(identity, "userName", Null).value, Or(Get(identity, "principalId", Null).value, Unknown)))
  }

  /** The actor is `userName` if truthy, else `principalId` if truthy, else "unknown". */
  lemma ActorFallback(detail: Value)
    requires detail.Dict? && Get(detail, "userIdentity", Dict([])).value.Dict?
    ensures var id := Get(detail, "userIdentity", Dict([])).value;
            var u := Lookup(id.entries, "userName");
            var p := Lookup(id.entries, "principalId");
            ActorOf(detail) == Ok(if u.Some? && Truthy(u.value) then u.value
                                 else if p.Some? && Truthy(p.value) then p.value
                                 else Unknown)
  {
  }

  /**
   * One pass of the loop body: `None` when the event is not important or its
   * handling raises (the loop then goes on with the next event).
   */
  function NormaliseEvent(raw: RawEvent, rtype: string, important: set<string>, region: string)
    : (r: Option<ParsedEvent>)
    ensures r.Some? ==> r.value.eventName in important && r.value.resourceType == Some(rtype) &&
                        r.value.region == region && r.value.eventId == raw.eventId
  {
    if raw.detail.None? then None
    else
      var detail := raw.detail.value;
      var name := Get(detail, "eventName", Null);
      if name.Raised? || !NameIn(name.value, important) then None
      else
        match (ActorOf(detail), ExtractResourceId(detail, rtype), ChangesOf(detail, rtype), Get(detail, "eventSource", Unknown))
        case (Ok(user), Ok(resource), Ok(changes), Ok(source)) =>
          Some(ParsedEvent(raw.eventId, raw.eventTime, name.value.s, source, user, resource, Some(rtype), changes, region))
        case _ => None
  }

  /**
   * An unimportant event is dropped; a kept event carries the actor, the
   * resource id, the changes and the `eventSource` (default "unknown") of its
   * detail; and an important event whose parts all extract is kept.
   */
  lemma NormaliseEventFields(raw: RawEvent, rtype: string, important: set<string>, region: string)
    requires raw.detail.Some?
    ensures var detail := raw.detail.value;
            var name := Get(detail, "eventName", Null);
            !(name.Ok? && NameIn(name.value, important)) ==> NormaliseEvent(raw, rtype, important, region).None?
    ensures var detail := raw.detail.value;
            var r := NormaliseEvent(raw, rtype, important, region);
            r.Some? ==>
              ActorOf(detail) == Ok(r.value.userName) &&
              ExtractResourceId(detail, rtype) == Ok(r.value.resourceName) &&
              ChangesOf(detail, rtype) == Ok(r.value.changes) &&
              Get(detail, "eventSource", Unknown) == Ok(r.value.eventSource) &&
              r.value.eventTime == raw.eventTime
    ensures var detail := raw.detail.value;
            var name := Get(detail, "eventName", Null);
            name.Ok? && NameIn(name.value, important) && ActorOf(detail).Ok? &&
            ExtractResourceId(detail, rtype).Ok? && ChangesOf(detail, rtype).Ok? ==>
              NormaliseEvent(raw, rtype, important, region).Some?
  {
  }

  /** `parsed_events` after the loop over `raws`. */
  function NormaliseAll(raws: seq<RawEvent>, rtype: string, important: set<string>, region: string)
    : seq<ParsedEvent>
    decreases |raws|
  {
    if raws == [] then []
    else
      var p := NormaliseEvent(raws[|raws| - 1], rtype, important, region);
      NormaliseAll(raws[..|raws| - 1], rtype, important, region) + (if p.Some? then [p.value] else [])
  }

  /** Every kept event is important, of the collector's type and region, and no more events come out than went in. */
  lemma {:induction false} NormaliseAllKeepsImportant(raws: seq<RawEvent>, rtype: string, important: set<string>, region: string)
    ensures var out := NormaliseAll(raws, rtype, important, region);
            |out| <= |raws| &&
            forall k :: 0 <= k < |out| ==>
              out[k].eventName in important && out[k].resourceType == Some(rtype) && out[k].region == region
    decreases |raws|
  {
    if raws != [] {
      NormaliseAllKeepsImportant(raws[..|raws| - 1], rtype, important, region);
    }
  }

  /** The loop handles each event on its own: a skipped or failing event does not stop the ones after it. */
  lemma {:induction false} NormaliseAllConcat(a: seq<RawEvent>, b: seq<RawEvent>, rtype: string,
                                              important: set<string>, region: string)
    ensures NormaliseAll(a + b, rtype, important, region) ==
            NormaliseAll(a, rtype, important, region) + NormaliseAll(b, rtype, important, region)
    decreases |b|
  {
    if b == [] {
      assert a + b == a;
    } else {
      var init := b[..|b| - 1];
      assert (a + b)[..|a + b| - 1] == a + init;
      assert (a + b)[|a + b| - 1] == b[|b| - 1];
      NormaliseAllConcat(a, init, rtype, important, region);
    }
  }

  /** `{"events": [...]}`, or `{"error": ..., "events": []}` when the client or `lookup_events` fails. */
  datatype EventBatch = EventBatch(events: seq<ParsedEvent>, failed: bool)

  /** `get_cloudtrail_events`; `lookup` is the `Events` list, `None` when the CloudTrail call fails. */
  method GetCloudtrailEvents(region: string, lookup: Option<seq<RawEvent>>, important: set<string>, rtype: string)
    returns (r: EventBatch)
    ensures lookup.None? ==> r == EventBatch([], true)
    ensures lookup.Some? ==> r == EventBatch(NormaliseAll(lookup.value, rtype, important, region), false)
  {
    if lookup.None? {
      return EventBatch([], true);
    }
    var events := lookup.value;
    var parsed: seq<ParsedEvent> := [];
    for i := 0 to |events|
      invariant parsed == NormaliseAll(events[..i], rtype, important, region)
    {
      assert events[..i + 1][..i] == events[..i];
      var raw := events[i];
      var p := NormaliseOne(raw, rtype, important, region);
      if p.Some? {
        parsed := parsed + [p.value];
      }
    }
    assert events[..|events|] == events;
    return EventBatch(parsed, false);
  }

  /** The body of the loop, statement by statement (`continue` on a filtered or failing event). */
  method NormaliseOne(raw: RawEvent, rtype: string, important: set<string>, region: string)
    returns (p: Option<ParsedEvent>)
    ensures p == NormaliseEvent(raw, rtype, important, region)
  {
    if raw.detail.None? {
      return None;
    }
    var detail := raw.detail.value;
    var name := Get(detail, "eventName", Null);
    if name.Raised? || !NameIn(name.value, important) {
      return None;
    }
    var user := ActorOf(detail);
    if user.Raised? {
      return None;
    }
    var resource := ExtractResourceId(detail, rtype);
    if resource.Raised? {
      return None;
    }
    var changes := ExtractChanges(detail, rtype);
    if changes.Raised? {
      return None;
    }
    var source := Get(detail, "eventSource", Unknown);
    if source.Raised? {
      return None;
    }
    return Some(ParsedEvent(raw.eventId, raw.eventTime, name.value.s, source.value, user.value,
                            resource.value, Some(rtype), changes.value, region));
  }

  /** The row `INSERT INTO cloudtrail_events ... VALUES (...)` writes for an event. */
  function EventRowOf(e: ParsedEvent, now: int): EventRow {
    EventRow(e.eventId, e.eventTime, e.eventName, e.eventSource, e.userName, e.resourceName,
             if e.resourceType.Some? then e.resourceType.value else "EC2", e.region, ChangesJson(e.changes), now)
  }

  /** `ON CONFLICT (event_id)`: a non-NULL id some stored row already has. */
  predicate Conflicts(store: seq<EventRow>, id: Option<string>) {
    id.Some? && exists k :: 0 <= k < |store| && store[k].eventId == id
  }

  /** The UNIQUE constraint on `event_id` (NULLs never collide). */
  predicate UniqueIds(store: seq<EventRow>) {
    forall i, j :: 0 <= i < j < |store| && store[i].eventId.Some? ==> store[i].eventId != store[j].eventId
  }

  /**
   * `{"inserted": n, "updated": 0}`; `{"error": ...}` when there is no
   * connection; `{"error": ..., "inserted": 0, "updated": 0}` when the
   * transaction is rolled back.
   */
  datatype TrailSummary = TrailCounts(inserted: nat, updated: nat) | TrailNoConnection | TrailRolledBack

  /** Whether one of the first `n` statements raises. */
  predicate Aborts(n: nat, rejects: set<nat>) {
    exists k :: 0 <= k < n && k in rejects
  }

  lemma AbortsStep(n: nat, rejects: set<nat>)
    ensures Aborts(n + 1, rejects) <==> Aborts(n, rejects) || n in rejects
  {
    if Aborts(n + 1, rejects) && !(n in rejects) {
      var k :| 0 <= k < n + 1 && k in rejects;
      assert k < n;
    }
  }

  /**
   * How many of the first `n` statements succeed. The first statement that
   * raises aborts the PostgreSQL transaction and every later one raises too,
   * so when one raises this is its position.
   */
  function Accepted(n: nat, rejects: set<nat>): (c: nat)
    ensures c <= n
    ensures !Aborts(n, rejects) ==> c == n
    ensures Aborts(n, rejects) ==> c in rejects && !Aborts(c, rejects)
  {
    if n == 0 then 0
    else
      AbortsStep(n - 1, rejects);
      Accepted(n - 1, rejects) + (if Aborts(n, rejects) then 0 else 1)
  }

  /**
   * The insert loop over `events` from `store`: a conflicting id inserts
   * nothing but is counted; a statement that raises, and every statement
   * after it, is caught and skipped uncounted.
   */
  function StoreAll(store: seq<EventRow>, events: seq<ParsedEvent>, rejects: set<nat>, now: int)
    : (r: (seq<EventRow>, nat))
    ensures r.1 == Accepted(|events|, rejects)
    decreases |events|
  {
    if events == [] then (store, 0)
    else
      var (rows, inserted) := StoreAll(store, events[..|events| - 1], rejects, now);
      var e := events[|events| - 1];
      if Aborts(|events|, rejects) then (rows, inserted)
      else if Conflicts(rows, e.eventId) then (rows, inserted + 1)
      else (rows + [EventRowOf(e, now)], inserted + 1)
  }

  /**
   * `insert_or_update_cloudtrail_events(events)` as a value: the new table and
   * the summary. `db.committed` is false when a statement outside the
   * per-event `try` (the table check, its creation, the final commit) raises.
   * `conn.commit()` on an aborted transaction does not raise: the server
   * rolls the batch back, and the summary still counts the statements that
   * succeeded before the failure.
   */
  function StoreEvents(store: seq<EventRow>, db: Outcomes, events: seq<ParsedEvent>, now: int)
    : (seq<EventRow>, TrailSummary)
  {
    if events == [] then (store, TrailCounts(0, 0))
    else if !db.connected then (store, TrailNoConnection)
    else if !db.committed then (store, TrailRolledBack)
    else
      var (rows, inserted) := StoreAll(store, events, db.rejects, now);
      (if Aborts(|events|, db.rejects) then store else rows, TrailCounts(inserted, 0))
  }

  /** `insert_or_update_cloudtrail_events`, statement by statement. */
  method InsertOrUpdateCloudtrailEvents(store: seq<EventRow>, db: Outcomes, events: seq<ParsedEvent>, now: int)
    returns (rows: seq<EventRow>, r: TrailSummary)
    ensures (rows, r) == StoreEvents(store, db, events, now)
  {
    if events == [] {
      return store, TrailCounts(0, 0);
    }
    if !db.connected {
      return store, TrailNoConnection;
    }
    rows := store;
    var inserted := 0;
    var aborted := false;
    for i := 0 to |events|
      invariant (rows, inserted) == StoreAll(store, events[..i], db.rejects, now)
      invariant aborted == Aborts(i, db.rejects)
    {
      assert events[..i + 1][..i] == events[..i];
      AbortsStep(i, db.rejects);
      var e := events[i];
      if aborted || i in db.rejects {
        aborted := true;
      } else {
        if !Conflicts(rows, e.eventId) {
          rows := rows + [EventRowOf(e, now)];
        }
        inserted := inserted + 1;
      }
    }
    assert events[..|events|] == events;
    if !db.committed {
      return store, TrailRolledBack;
    }
    if aborted {
      rows := store;
    }
    r := TrailCounts(inserted, 0);
  }

  /** Stored rows are never altered or removed. */
  lemma {:induction false} StoreKeepsRows(store: seq<EventRow>, events: seq<ParsedEvent>, rejects: set<nat>, now: int)
    ensures var (rows, _) := StoreAll(store, events, rejects, now);
            |store| <= |rows| && rows[..|store|] == store
    decreases |events|
  {
    if events != [] {
      StoreKeepsRows(store, events[..|events| - 1], rejects, now);
    }
  }

  /** The insert loop keeps event ids unique. */
  lemma {:induction false} StoreKeepsIdsUnique(store: seq<EventRow>, events: seq<ParsedEvent>, rejects: set<nat>, now: int)
    requires UniqueIds(store)
    ensures UniqueIds(StoreAll(store, events, rejects, now).0)
    decreases |events|
  {
    if events != [] {
      StoreKeepsIdsUnique(store, events[..|events| - 1], rejects, now);
    }
  }

  /** After an insert that runs before any failure, the event's (non-NULL) id is in the table. */
  lemma {:induction false} StoredIdsPresent(store: seq<EventRow>, events: seq<ParsedEvent>, rejects: set<nat>,
                                            now: int, k: nat)
    requires k < |events| && !Aborts(k + 1, rejects) && events[k].eventId.Some?
    ensures Conflicts(StoreAll(store, events, rejects, now).0, events[k].eventId)
    decreases |events|
  {
    var init := events[..|events| - 1];
    var rows := StoreAll(store, init, rejects, now).0;
    StoreKeepsRows(rows, [events[|events| - 1]], rejects, now);
    if k < |events| - 1 {
      assert init[k] == events[k];
      StoredIdsPresent(store, init, rejects, now, k);
      var j :| 0 <= j < |rows| && rows[j].eventId == events[k].eventId;
      var after := StoreAll(store, events, rejects, now).0;
      assert after[..|rows|] == rows by {
        var last := events[|events| - 1];
        if !Aborts(|events|, rejects) && !Conflicts(rows, last.eventId) {
          assert after == rows + [EventRowOf(last, now)];
        }
      }
      assert after[j] == rows[j];
    } else {
      var after := StoreAll(store, events, rejects, now).0;
      if !Conflicts(rows, events[k].eventId) {
        assert after[|rows|].eventId == events[k].eventId;
      }
    }
  }

  /** Inserting events whose ids are all already stored changes nothing. */
  lemma {:induction false} StoreOfStoredIsNoop(store: seq<EventRow>, events: seq<ParsedEvent>, rejects: set<nat>, now: int)
    requires forall k :: 0 <= k < |events| ==> Conflicts(store, events[k].eventId)
    ensures StoreAll(store, events, rejects, now).0 == store
    decreases |events|
  {
    if events != [] {
      StoreOfStoredIsNoop(store, events[..|events| - 1], rejects, now);
    }
  }

  /** Re-inserting a batch whose events all carry ids is a no-op (`ON CONFLICT DO NOTHING`). */
  lemma StoreIdempotent(store: seq<EventRow>, events: seq<ParsedEvent>, now: int, later: int)
    requires forall k :: 0 <= k < |events| ==> events[k].eventId.Some?
    ensures var once := StoreEvents(store, Outcomes(true, true, {}), events, now).0;
            StoreEvents(once, Outcomes(true, true, {}), events, later).0 == once
  {
    var once := StoreAll(store, events, {}, now).0;
    forall k | 0 <= k < |events| ensures Conflicts(once, events[k].eventId) {
      StoredIdsPresent(store, events, {}, now, k);
    }
    StoreOfStoredIsNoop(once, events, {}, later);
  }

  /** An event without an id never conflicts, so storing it twice leaves two rows. */
  lemma NullIdStoredTwice(store: seq<EventRow>, e: ParsedEvent, now: int)
    requires e.eventId.None?
    ensures var once := StoreEvents(store, Outcomes(true, true, {}), [e], now).0;
            StoreEvents(once, Outcomes(true, true, {}), [e], now).0 == store + [EventRowOf(e, now), EventRowOf(e, now)]
  {
    assert [e][..0] == [];
    var once := store + [EventRowOf(e, now)];
    assert StoreAll(store, [e], {}, now).0 == once;
    assert Conflicts(once, e.eventId) == false;
    assert StoreAll(once, [e], {}, now).0 == once + [EventRowOf(e, now)];
  }

  /** `inserted` counts every statement that did not raise, conflicts included, and `updated` is always 0. */
  lemma InsertedCountsConflicts(store: seq<EventRow>, events: seq<ParsedEvent>, now: int)
    ensures StoreEvents(store, Outcomes(true, true, {}), events, now).1 == TrailCounts(|events|, 0)
  {
  }

  /**
   * Once a statement raises, the commit rolls the whole batch back, yet the
   * summary reports the statements before the first failure as inserted.
   */
  lemma AbortedBatchRollsBack(store: seq<EventRow>, db: Outcomes, events: seq<ParsedEvent>, now: int, k: nat)
    requires db.connected && db.committed && k < |events| && k in db.rejects && !Aborts(k, db.rejects)
    ensures StoreEvents(store, db, events, now) == (store, TrailCounts(k, 0))
  {
    assert Aborts(|events|, db.rejects);
  }

  /** A missing resource type is stored as "EC2". */
  lemma MissingTypeIsEc2(e: ParsedEvent, now: int)
    requires e.resourceType.None?
    ensures EventRowOf(e, now).resourceType == "EC2"
  {
  }

  /** With no events, without a connection, or rolled back, nothing is stored. */
  lemma StoreFailurePaths(store: seq<EventRow>, db: Outcomes, events: seq<ParsedEvent>, now: int)
    ensures StoreEvents(store, db, [], now) == (store, TrailCounts(0, 0))
    ensures events != [] && !db.connected ==> StoreEvents(store, db, events, now) == (store, TrailNoConnection)
    ensures events != [] && db.connected && !db.committed ==> StoreEvents(store, db, events, now) == (store, TrailRolledBack)
  {
  }
}
