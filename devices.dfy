/** Video input devices: the listing `enumerateDevices` builds, the
    description lookup, the constructor's choice of device, and the rule
    `createFilterGraph` uses to bind a capture filter. */
module DeviceRegistry {
  import opened MediaTypes

  /** What one device moniker yields: its display name (None: GetDisplayName
      fails), whether its property bag can be bound, its friendly name (None:
      the property cannot be read), and whether the filter object binds. */
  datatype Moniker = Moniker(displayName: Option<string>, storageOk: bool, friendlyName: Option<string>, objectOk: bool)

  /** The outcome of asking for the video input category enumerator:
      a failure (FAILED(hr)), S_FALSE with no enumerator (an empty category),
      or S_OK with the monikers the enumerator returns. */
  datatype ClassEnum = EnumFailed | EnumEmpty | EnumReady(monikers: seq<Moniker>)

  function MonikersOf(e: ClassEnum): seq<Moniker>
  {
    if e.EnumReady? then e.monikers else []
  }

  // ---------------------------------------------------------- substring test

  /** `QByteArray::contains`: whether q occurs in s (the empty q always does). */
  function Contains(s: string, q: string): (r: bool)
    ensures |q| == 0 ==> r
    ensures r ==> |q| <= |s|
    decreases |s|
  {
    q <= s || (|s| > 0 && Contains(s[1..], q))
  }

  /** q occurs in s at offset i. */
  predicate OccursAt(s: string, q: string, i: int)
  {
    0 <= i <= |s| - |q| && s[i..i + |q|] == q
  }

  /** `Contains` is the substring relation. */
  lemma {:induction false} ContainsIff(s: string, q: string)
    ensures Contains(s, q) <==> exists i :: OccursAt(s, q, i)
    decreases |s|
  {
    if q <= s {
      assert OccursAt(s, q, 0);
    } else if |s| == 0 {
    } else {
      ContainsIff(s[1..], q);
      if Contains(s[1..], q) {
        var i :| OccursAt(s[1..], q, i);
        assert s[i + 1..i + 1 + |q|] == s[1..][i..i + |q|];
        assert OccursAt(s, q, i + 1);
      }
      if exists i :: OccursAt(s, q, i) {
        var i :| OccursAt(s, q, i);
        if i > 0 {
          assert s[1..][i - 1..i - 1 + |q|] == s[i..i + |q|];
          assert OccursAt(s[1..], q, i - 1);
        }
      }
    }
  }

  // -------------------------------------------------------- enumerateDevices

  /** The monikers whose display name can be read, in enumeration order. */
  function Listed(ms: seq<Moniker>): (r: seq<Moniker>)
    ensures |r| <= |ms|
    ensures forall k | 0 <= k < |r| :: r[k].displayName.Some? && r[k] in ms
  {
    if ms == [] then []
    else
      var last := ms[|ms| - 1];
      var init := Listed(ms[..|ms| - 1]);
      assert forall m | m in ms[..|ms| - 1] :: m in ms;
      init + (if last.displayName.Some? then [last] else [])
  }

  /** A single moniker is listed exactly when its display name can be read. */
  lemma ListedSingle(m: Moniker)
    ensures Listed([m]) == if m.displayName.Some? then [m] else []
  {
    assert [m][..0] == [];
  }

  /** Listing keeps enumeration order and multiplicity: the listing of two
      runs of monikers is the listing of the first followed by that of the
      second. */
  lemma {:induction false} ListedAppend(a: seq<Moniker>, b: seq<Moniker>)
    ensures Listed(a + b) == Listed(a) + Listed(b)
    decreases |b|
  {
    if b == [] {
      assert a + b == a;
    } else {
      var init, last := b[..|b| - 1], b[|b| - 1];
      var tail := if last.displayName.Some? then [last] else [];
      assert (a + b)[..|a + b| - 1] == a + init;
      assert (a + b)[|a + b| - 1] == last;
      assert Listed(a + b) == Listed(a + init) + tail;
      assert Listed(b) == Listed(init) + tail;
      ListedAppend(a, init);
    }
  }

  /** The description of a listed moniker: its friendly name when the property
      bag binds and the name can be read, its display name otherwise. */
  function DescriptionOf(m: Moniker): string
    requires m.displayName.Some?
  {
    if m.storageOk && m.friendlyName.Some? then m.friendlyName.value else m.displayName.value
  }

  /** The `devices` list: one display name per listed moniker. */
  function DeviceIds(ms: seq<Moniker>): (r: seq<string>)
    ensures |r| == |Listed(ms)|
  {
    var l := Listed(ms);
    seq(|l|, k requires 0 <= k < |l| => l[k].displayName.value)
  }

  /** The `descriptions` list: one description per listed moniker. */
  function DeviceDescriptions(ms: seq<Moniker>): (r: seq<string>)
    ensures |r| == |Listed(ms)|
  {
    var l := Listed(ms);
    seq(|l|, k requires 0 <= k < |l| => DescriptionOf(l[k]))
  }

  /** The two lists are filled in lockstep: entry k of both comes from the
      same moniker, and a description is the display name whenever no friendly
      name can be read. */
  lemma ListingLockstep(ms: seq<Moniker>, k: nat)
    requires k < |DeviceIds(ms)|
    ensures |DeviceDescriptions(ms)| == |DeviceIds(ms)|
    ensures exists m | m in ms :: m.displayName == Some(DeviceIds(ms)[k]) && DeviceDescriptions(ms)[k] == DescriptionOf(m)
    ensures !(Listed(ms)[k].storageOk && Listed(ms)[k].friendlyName.Some?) ==> DeviceDescriptions(ms)[k] == DeviceIds(ms)[k]
  {
    var m := Listed(ms)[k];
    assert m in ms;
  }

  /** Every moniker with a readable display name is listed. */
  lemma {:induction false} ListingComplete(ms: seq<Moniker>, i: nat)
    requires i < |ms| && ms[i].displayName.Some?
    ensures ms[i].displayName.value in DeviceIds(ms)
  {
    var l := Listed(ms);
    assert ms[i] in l by { ListedHas(ms, i); }
    var k :| 0 <= k < |l| && l[k] == ms[i];
    assert DeviceIds(ms)[k] == ms[i].displayName.value;
  }

  lemma {:induction false} ListedHas(ms: seq<Moniker>, i: nat)
    requires i < |ms| && ms[i].displayName.Some?
    ensures ms[i] in Listed(ms)
  {
    var init := ms[..|ms| - 1];
    if i < |ms| - 1 {
      assert init[i] == ms[i];
      ListedHas(init, i);
    }
  }

  /** Whether the enumeration loop is entered for an enumerator outcome.
      Corrected: only when an enumerator was returned (S_OK), as
      `createFilterGraph` checks. */
  predicate WalksEnumerator(e: ClassEnum)
  {
    e.EnumReady?
  }

  /** As written, `enumerateDevices` tests SUCCEEDED(hr), which also holds for
      S_FALSE, and then calls Reset on the enumerator it got. */
  predicate WalksEnumeratorAsWritten(e: ClassEnum)
  {
    !e.EnumFailed?
  }

  /** An empty video input category makes the code as written use the null
      enumerator; the corrected test does not. */
  lemma EmptyCategoryUsesNullEnumerator()
    ensures WalksEnumeratorAsWritten(EnumEmpty) && !EnumEmpty.EnumReady?
    ensures !WalksEnumerator(EnumEmpty)
  {
  }

  /** `enumerateDevices`: both lists cleared, then one entry appended to each
      per moniker whose display name can be read. */
  method EnumerateDevices(e: ClassEnum) returns (devices: seq<string>, descriptions: seq<string>)
    ensures devices == DeviceIds(MonikersOf(e))
    ensures descriptions == DeviceDescriptions(MonikersOf(e))
    ensures |devices| == |descriptions|
  {
    devices, descriptions := [], [];
    if !WalksEnumerator(e) {
      return;
    }
    var ms := e.monikers;
    var i := 0;
    while i < |ms|
      invariant 0 <= i <= |ms|
      invariant devices == DeviceIds(ms[..i]) && descriptions == DeviceDescriptions(ms[..i])
    {
      var m := ms[i];
      assert ms[..i + 1][..i] == ms[..i];
      if m.displayName.Some? {
        var output := m.displayName.value;
        devices := devices + [output];
        if m.storageOk && m.friendlyName.Some? {
          output := m.friendlyName.value;
        }
        descriptions := descriptions + [output];
      }
      i := i + 1;
    }
    assert ms[..|ms|] == ms;
  }

  /** `availableDevices`: a fresh enumeration's ids, each the display name of
      a moniker in the category. */
  method AvailableDevices(e: ClassEnum) returns (devices: seq<string>)
    ensures devices == DeviceIds(MonikersOf(e))
    ensures forall k | 0 <= k < |devices| :: exists m | m in MonikersOf(e) :: m.displayName == Some(devices[k])
  {
    var descriptions;
    devices, descriptions := EnumerateDevices(e);
    forall k | 0 <= k < |devices|
      ensures exists m | m in MonikersOf(e) :: m.displayName == Some(devices[k])
    {
      ListingLockstep(MonikersOf(e), k);
    }
  }

  // -------------------------------------------------------- deviceDescription

  /** The first index from `from` on whose id contains the query. */
  function FirstContaining(devices: seq<string>, query: string, from: nat): (r: Option<nat>)
    ensures r.Some? ==> from <= r.value < |devices| && Contains(devices[r.value], query)
    ensures r.Some? ==> forall j | from <= j < r.value :: !Contains(devices[j], query)
    ensures r.None? ==> forall j | from <= j < |devices| :: !Contains(devices[j], query)
    decreases |devices| - from
  {
    if from >= |devices| then None
    else if Contains(devices[from], query) then Some(from)
    else FirstContaining(devices, query, from + 1)
  }

  /** `deviceDescription`: the description of the first listed device whose
      id contains the query, the empty string when there is none. */
  method DeviceDescription(e: ClassEnum, query: string) returns (description: string)
    ensures var ids := DeviceIds(MonikersOf(e));
            var hit := FirstContaining(ids, query, 0);
            description == if hit.Some? then DeviceDescriptions(MonikersOf(e))[hit.value] else ""
  {
    var devices, descriptions := EnumerateDevices(e);
    var i := 0;
    while i < |devices|
      invariant 0 <= i <= |devices|
      invariant FirstContaining(devices, query, 0) == FirstContaining(devices, query, i)
    {
      if Contains(devices[i], query) {
        return descriptions[i];
      }
      i := i + 1;
    }
    return "";
  }

  /** A query that is a whole listed id finds a description. */
  lemma DescriptionFoundForListedId(e: ClassEnum, k: nat)
    requires k < |DeviceIds(MonikersOf(e))|
    ensures FirstContaining(DeviceIds(MonikersOf(e)), DeviceIds(MonikersOf(e))[k], 0).Some?
  {
    var ids := DeviceIds(MonikersOf(e));
    assert ids[k] <= ids[k];
  }

  // ------------------------------------------------ the constructor's choice

  /** The device the constructor keeps: the requested id if it is exactly one
      of the listed ids, "default" otherwise. */
  function ChooseDevice(devices: seq<string>, requested: string): (r: string)
    ensures r in devices || r == "default"
    ensures requested in devices ==> r == requested
    ensures requested !in devices ==> r == "default"
  {
    if requested in devices then requested else "default"
  }

  // --------------------------------------------- binding the capture filter

  /** The name loop tries a moniker when its display name can be read and
      occurs inside the selected device id. */
  predicate NameTried(device: string, m: Moniker)
  {
    m.displayName.Some? && Contains(device, m.displayName.value)
  }

  /** ... and binds it when the object bind then succeeds. */
  predicate NameBinds(device: string, m: Moniker)
  {
    NameTried(device, m) && m.objectOk
  }

  /** The first loop of the binding: `pCap` after walking the monikers. A
      failed BindToObject leaves its out-parameter null. */
  function NameLoop(ms: seq<Moniker>, device: string, current: Option<Moniker>): Option<Moniker>
  {
    if ms == [] then current
    else if NameTried(device, ms[0]) then
      if ms[0].objectOk then Some(ms[0]) else NameLoop(ms[1..], device, None)
    else NameLoop(ms[1..], device, current)
  }

  /** The second loop: the first moniker whose property bag and filter object
      both bind. */
  function DefaultLoop(ms: seq<Moniker>): Option<Moniker>
  {
    if ms == [] then None
    else if ms[0].storageOk && ms[0].objectOk then Some(ms[0])
    else DefaultLoop(ms[1..])
  }

  /** The binding rule: by name first; when that leaves no filter and the
      device id contains "default", the first moniker that binds. */
  function BindRule(ms: seq<Moniker>, device: string, current: Option<Moniker>): Option<Moniker>
  {
    var byName := NameLoop(ms, device, current);
    if byName.None? && Contains(device, "default") then DefaultLoop(ms) else byName
  }

  /** The name loop binds the first moniker whose name is inside the device id
      and whose object binds. */
  lemma {:induction false} NameLoopFirst(ms: seq<Moniker>, device: string, current: Option<Moniker>, i: nat)
    requires i < |ms| && NameBinds(device, ms[i])
    requires forall j | 0 <= j < i :: !NameBinds(device, ms[j])
    ensures NameLoop(ms, device, current) == Some(ms[i])
  {
    if i > 0 {
      assert !NameBinds(device, ms[0]);
      var rest := ms[1..];
      assert forall j | 0 <= j < i - 1 :: rest[j] == ms[j + 1];
      NameLoopFirst(rest, device, if NameTried(device, ms[0]) then None else current, i - 1);
    }
  }

  /** When no moniker binds by name, the name loop leaves `pCap` as it was if
      it tried nothing, and null if it tried something. */
  lemma {:induction false} NameLoopNone(ms: seq<Moniker>, device: string, current: Option<Moniker>)
    requires forall j | 0 <= j < |ms| :: !NameBinds(device, ms[j])
    ensures NameLoop(ms, device, current)
         == if exists j | 0 <= j < |ms| :: NameTried(device, ms[j]) then None else current
  {
    if ms != [] {
      var rest := ms[1..];
      assert forall j | 0 <= j < |rest| :: rest[j] == ms[j + 1];
      var next := if NameTried(device, ms[0]) then None else current;
      NameLoopNone(rest, device, next);
      if exists j | 0 <= j < |ms| :: NameTried(device, ms[j]) {
        var j :| 0 <= j < |ms| && NameTried(device, ms[j]);
        if j > 0 {
          assert NameTried(device, rest[j - 1]);
        }
      } else {
        assert forall j | 0 <= j < |rest| :: !NameTried(device, rest[j]);
      }
    }
  }

  /** The default loop takes the first moniker whose storage and object both
      bind, and nothing when there is none. */
  lemma {:induction false} DefaultLoopFirst(ms: seq<Moniker>, i: nat)
    requires i <= |ms|
    requires forall j | 0 <= j < i :: !(ms[j].storageOk && ms[j].objectOk)
    requires i < |ms| ==> ms[i].storageOk && ms[i].objectOk
    ensures DefaultLoop(ms) == if i < |ms| then Some(ms[i]) else None
  {
    if i > 0 {
      var rest := ms[1..];
      assert forall j | 0 <= j < i - 1 :: rest[j] == ms[j + 1];
      DefaultLoopFirst(rest, i - 1);
    }
  }

  /** The default fallback applies only when the id contains "default" and no
      moniker binds by name; it never binds a moniker whose storage fails. */
  lemma BindRuleFallback(ms: seq<Moniker>, device: string, current: Option<Moniker>)
    requires forall j | 0 <= j < |ms| :: !NameBinds(device, ms[j])
    requires current.None? || exists j | 0 <= j < |ms| :: NameTried(device, ms[j])
    ensures Contains(device, "default") ==> BindRule(ms, device, current) == DefaultLoop(ms)
    ensures !Contains(device, "default") ==> BindRule(ms, device, current).None?
  {
    NameLoopNone(ms, device, current);
  }

  /** The two loops of `createFilterGraph` that set `pCap`, starting from its
      current value. */
  method BindCaptureFilter(ms: seq<Moniker>, device: string, current: Option<Moniker>) returns (pCap: Option<Moniker>)
    ensures pCap == BindRule(ms, device, current)
  {
    pCap := current;
    var i := 0;
    while i < |ms|
      invariant 0 <= i <= |ms|
      invariant NameLoop(ms, device, current) == NameLoop(ms[i..], device, pCap)
    {
      assert ms[i..][1..] == ms[i + 1..];
      var m := ms[i];
      if m.displayName.Some? && Contains(device, m.displayName.value) {
        if m.objectOk {
          pCap := Some(m);
          return;
        }
        pCap := None;
      }
      i := i + 1;
    }
    if pCap.None? && Contains(device, "default") {
      i := 0;
      while i < |ms|
        invariant 0 <= i <= |ms|
        invariant DefaultLoop(ms) == DefaultLoop(ms[i..]) && pCap.None?
      {
        assert ms[i..][1..] == ms[i + 1..];
        var m := ms[i];
        if !m.storageOk {
          i := i + 1;
          continue;
        }
        if m.objectOk {
          pCap := Some(m);
          return;
        }
        i := i + 1;
      }
    }
  }
}
