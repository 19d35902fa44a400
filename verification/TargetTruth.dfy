/** The cached target snapshot and the rule by which TARGET_CHANGED payloads replace it. */
module TargetTruth {
  import opened Wrappers

  /** A decoded payload value; kinds this rule never inspects are kept as uninterpreted bytes. */
  datatype Value = Unsigned(n: nat) | Bool(b: bool) | Other(repr: seq<int>)

  type Payload = seq<(nat, Value)>

  datatype Profile = Terminal | Desktop | Unsupported

  datatype Error = BadKeys | BadField | BadDescriptor | ZeroGeneration | MovedBackward | ReusedGeneration

  // ------------------------------------------------------------------------------------------
  // Payload helpers
  // ------------------------------------------------------------------------------------------

  function Find(payload: Payload, key: nat): Option<Value> {
    if payload == [] then None
    else if payload[0].0 == key then Some(payload[0].1)
    else Find(payload[1..], key)
  }

  function RequiredU64(payload: Payload, key: nat): Result<nat, Error> {
    match Find(payload, key)
    case Some(Unsigned(n)) => Success(n)
    case _ => Failure(BadField)
  }

  function RequiredBool(payload: Payload, key: nat): Result<bool, Error> {
    match Find(payload, key)
    case Some(Bool(b)) => Success(b)
    case _ => Failure(BadField)
  }

  /** Strictly ascending keys, every key up to `last` present, nothing else but `optional`. */
  predicate ValidKeys(payload: Payload, last: nat, optional: set<nat>) {
    && (forall i :: 0 < i < |payload| ==> payload[i - 1].0 < payload[i].0)
    && (forall key :: 0 <= key <= last ==> Find(payload, key).Some?)
    && (forall i :: 0 <= i < |payload| ==> payload[i].0 <= last || payload[i].0 in optional)
  }

  predicate ExactKeys(payload: Payload, last: nat) {
    |payload| == last + 1 && forall i :: 0 <= i <= last ==> payload[i].0 == i
  }

  /** The entries whose key satisfies the filter, in order. */
  function UpTo(payload: Payload, last: nat): Payload {
    if payload == [] then []
    else (if payload[0].0 <= last then [payload[0]] else []) + UpTo(payload[1..], last)
  }

  function Without(payload: Payload, key: nat): Payload {
    if payload == [] then []
    else (if payload[0].0 != key then [payload[0]] else []) + Without(payload[1..], key)
  }

  lemma {:induction false} FindIsAtAnIndex(payload: Payload, key: nat)
    ensures Find(payload, key).Some? ==> exists i :: 0 <= i < |payload| && payload[i].0 == key
  {
    if payload != [] {
      if payload[0].0 != key {
        FindIsAtAnIndex(payload[1..], key);
        if Find(payload, key).Some? {
          var i :| 0 <= i < |payload[1..]| && payload[1..][i].0 == key;
          assert payload[i + 1].0 == key;
        }
      }
    }
  }

  lemma {:induction false} AscendingFromZero(payload: Payload, i: nat)
    requires forall k :: 0 < k < |payload| ==> payload[k - 1].0 < payload[k].0
    requires i < |payload|
    ensures payload[i].0 >= i
  {
    if i > 0 {
      AscendingFromZero(payload, i - 1);
    }
  }

  /** With strictly ascending keys and every key up to `last` present, key i sits at index i. */
  lemma {:induction false} KeyAtItsIndex(payload: Payload, last: nat, optional: set<nat>, i: nat)
    requires ValidKeys(payload, last, optional) && i <= last
    ensures i < |payload| && forall k :: 0 <= k <= i ==> payload[k].0 == k
  {
    if i > 0 {
      KeyAtItsIndex(payload, last, optional, i - 1);
    }
    FindIsAtAnIndex(payload, i);
    var j :| 0 <= j < |payload| && payload[j].0 == i;
    AscendingFromZero(payload, j);
  }

  lemma {:induction false} UpToIsPrefix(payload: Payload, last: nat, n: nat)
    requires n <= |payload|
    requires forall k :: 0 <= k < n ==> payload[k].0 <= last
    requires forall k :: n <= k < |payload| ==> payload[k].0 > last
    ensures UpTo(payload, last) == payload[..n]
  {
    if payload != [] {
      UpToIsPrefix(payload[1..], last, if n > 0 then n - 1 else 0);
    }
  }

  lemma {:induction false} AscendingBeyond(payload: Payload, i: nat, j: nat)
    requires forall k :: 0 < k < |payload| ==> payload[k - 1].0 < payload[k].0
    requires i < j < |payload|
    ensures payload[i].0 < payload[j].0
  {
    if i < j - 1 {
      AscendingBeyond(payload, i, j - 1);
    }
  }

  /** What is cached is exactly the leading entries of the payload, and they carry exactly the
      canonical descriptor keys. */
  lemma DescriptorIsCanonical(payload: Payload, last: nat, optional: set<nat>)
    requires ValidKeys(payload, last, optional)
    ensures |payload| > last && UpTo(payload, last) == payload[..last + 1]
    ensures ExactKeys(UpTo(payload, last), last)
  {
    KeyAtItsIndex(payload, last, optional, last);
    forall k | last + 1 <= k < |payload|
      ensures payload[k].0 > last
    {
      AscendingBeyond(payload, last, k);
    }
    UpToIsPrefix(payload, last, last + 1);
  }

  // ------------------------------------------------------------------------------------------
  // Descriptors
  // ------------------------------------------------------------------------------------------

  function SettledKey(profile: Profile): nat { if profile.Desktop? then 5 else 6 }

  function LastDescriptorKey(profile: Profile): nat { if profile.Desktop? then 6 else 8 }

  function DescriptorSettled(profile: Profile, descriptor: Payload): Result<bool, Error> {
    RequiredBool(descriptor, SettledKey(profile))
  }

  /** Everything but the settle flag. */
  function Geometry(profile: Profile, descriptor: Payload): Payload { Without(descriptor, SettledKey(profile)) }

  predicate ValidTerminal(descriptor: Payload) {
    && ExactKeys(descriptor, 8)
    && (forall key :: 0 <= key <= 5 ==>
          RequiredU64(descriptor, key).Success? && RequiredU64(descriptor, key).value != 0)
    && RequiredBool(descriptor, 6).Success?
    && RequiredU64(descriptor, 7) == Success(3)
    && RequiredU64(descriptor, 8).Success? && RequiredU64(descriptor, 8).value != 0
  }

  /** The desktop decoder belongs to the protocol library and is a parameter here. */
  predicate ValidDescriptor(profile: Profile, desktopDecodes: Payload -> bool, descriptor: Payload) {
    match profile
    case Terminal => ValidTerminal(descriptor)
    case Desktop => desktopDecodes(descriptor)
    case Unsupported => false
  }

  // ------------------------------------------------------------------------------------------
  // The rule
  // ------------------------------------------------------------------------------------------

  datatype Target = Target(profile: Profile, generation: nat, descriptor: Payload)

  function Descriptor(profile: Profile, payload: Payload): Payload { UpTo(payload, LastDescriptorKey(profile)) }

  /** The snapshot after a payload, or why the payload is refused. */
  function Apply(t: Target, desktopDecodes: Payload -> bool, payload: Payload): Result<Target, Error> {
    if !ValidKeys(payload, LastDescriptorKey(t.profile), {9, 10}) then Failure(BadKeys)
    else
      var _ :- RequiredU64(payload, 10);
      var generation :- RequiredU64(payload, 9);
      if generation == 0 then Failure(ZeroGeneration)
      else
        var descriptor := Descriptor(t.profile, payload);
        if !ValidDescriptor(t.profile, desktopDecodes, descriptor) then Failure(BadDescriptor)
        else if generation < t.generation then Failure(MovedBackward)
        else if generation == t.generation then
          var currentSettled :- DescriptorSettled(t.profile, t.descriptor);
          var nextSettled :- DescriptorSettled(t.profile, descriptor);
          if currentSettled || !nextSettled || Geometry(t.profile, t.descriptor) != Geometry(t.profile, descriptor)
          then Failure(ReusedGeneration)
          else Success(t.(descriptor := descriptor))
        else Success(t.(generation := generation, descriptor := descriptor))
  }

  class Session {
    const profile: Profile
    const desktopDecodes: Payload -> bool
    var targetGeneration: nat
    var targetDescriptor: Payload

    ghost function View(): Target
      reads this
    {
      Target(profile, targetGeneration, targetDescriptor)
    }

    constructor (profile: Profile, desktopDecodes: Payload -> bool, generation: nat, descriptor: Payload)
      ensures View() == Target(profile, generation, descriptor) && this.desktopDecodes == desktopDecodes
    {
      this.profile, this.desktopDecodes := profile, desktopDecodes;
      targetGeneration, targetDescriptor := generation, descriptor;
    }

    /** A refused payload changes nothing; an accepted one installs exactly its descriptor. */
    method ApplyTargetChanged(payload: Payload) returns (r: Result<nat, Error>)
      modifies this
      ensures var next := Apply(old(View()), desktopDecodes, payload);
        if next.Failure? then r == Failure(next.error) && unchanged(this)
        else r == Success(targetGeneration) && View() == next.value
    {
      var last := LastDescriptorKey(profile);
      if !ValidKeys(payload, last, {9, 10}) {
        return Failure(BadKeys);
      }
      var _ :- RequiredU64(payload, 10);
      var generation :- RequiredU64(payload, 9);
      if generation == 0 {
        return Failure(ZeroGeneration);
      }
      var descriptor := UpTo(payload, last);
      if !ValidDescriptor(profile, desktopDecodes, descriptor) {
        return Failure(BadDescriptor);
      }
      if generation < targetGeneration {
        return Failure(MovedBackward);
      }
      if generation == targetGeneration {
        var currentSettled :- DescriptorSettled(profile, targetDescriptor);
        var nextSettled :- DescriptorSettled(profile, descriptor);
        var sameGeometry := Geometry(profile, targetDescriptor) == Geometry(profile, descriptor);
        if currentSettled || !nextSettled || !sameGeometry {
          return Failure(ReusedGeneration);
        }
        targetDescriptor := descriptor;
        return Success(generation);
      }
      targetGeneration := generation;
      targetDescriptor := descriptor;
      return Success(generation);
    }
  }

  // ------------------------------------------------------------------------------------------
  // Whole runs
  // ------------------------------------------------------------------------------------------

  ghost predicate IsSettled(profile: Profile, descriptor: Payload) {
    DescriptorSettled(profile, descriptor) == Success(true)
  }

  /** The lexicographic order on (generation, settled). */
  ghost predicate Before(g1: nat, settled1: bool, g2: nat, settled2: bool) {
    g1 < g2 || (g1 == g2 && !settled1 && settled2)
  }

  ghost predicate WellFormed(profile: Profile, desktopDecodes: Payload -> bool, payload: Payload) {
    && ValidKeys(payload, LastDescriptorKey(profile), {9, 10})
    && RequiredU64(payload, 10).Success?
    && RequiredU64(payload, 9).Success? && RequiredU64(payload, 9).value != 0
    && ValidDescriptor(profile, desktopDecodes, Descriptor(profile, payload))
  }

  /** A payload is accepted exactly when it is well formed and its (generation, settled) pair is
      strictly above the snapshot's, with identical geometry and a readable flag on both sides
      when the generation is reused. */
  lemma AcceptanceIsExact(t: Target, desktopDecodes: Payload -> bool, payload: Payload)
    ensures Apply(t, desktopDecodes, payload).Success? <==>
      && WellFormed(t.profile, desktopDecodes, payload)
      && var next := Descriptor(t.profile, payload);
         var generation := RequiredU64(payload, 9).value;
         && Before(t.generation, IsSettled(t.profile, t.descriptor), generation, IsSettled(t.profile, next))
         && (generation == t.generation ==>
               DescriptorSettled(t.profile, t.descriptor).Success?
               && Geometry(t.profile, t.descriptor) == Geometry(t.profile, next))
    ensures Apply(t, desktopDecodes, payload).Success? ==>
              Apply(t, desktopDecodes, payload).value
              == Target(t.profile, RequiredU64(payload, 9).value, Descriptor(t.profile, payload))
  {}

  /** Why a payload is refused: the checks come in the source's order. */
  lemma RefusalIsExact(t: Target, desktopDecodes: Payload -> bool, payload: Payload)
    ensures var r, keys := Apply(t, desktopDecodes, payload), ValidKeys(payload, LastDescriptorKey(t.profile), {9, 10});
            var fields := keys && RequiredU64(payload, 10).Success? && RequiredU64(payload, 9).Success?;
            var formed := WellFormed(t.profile, desktopDecodes, payload);
            && (r == Failure(BadKeys) <==> !keys)
            && (keys && !fields ==> r == Failure(BadField))
            && (r == Failure(ZeroGeneration) <==> fields && RequiredU64(payload, 9).value == 0)
            && (r == Failure(BadDescriptor) <==> fields && RequiredU64(payload, 9).value != 0 && !formed)
            && (r == Failure(MovedBackward) <==> formed && RequiredU64(payload, 9).value < t.generation)
            && (r == Failure(ReusedGeneration) ==> formed && RequiredU64(payload, 9).value == t.generation)
  {}

  lemma {:induction false} FindAt(payload: Payload, i: nat)
    requires i < |payload| && forall k :: 0 <= k < i ==> payload[k].0 != payload[i].0
    ensures Find(payload, payload[i].0) == Some(payload[i].1)
  {
    if i > 0 {
      FindAt(payload[1..], i - 1);
    }
  }

  /** The generation and the reason follow the descriptor's entries, and nothing else does. */
  ghost predicate IsPayload(profile: Profile, desktopDecodes: Payload -> bool, payload: Payload,
                            descriptor: Payload, generation: nat, reason: nat)
  {
    && payload == descriptor + [(9, Unsigned(generation)), (10, Unsigned(reason))]
    && ExactKeys(descriptor, if profile.Desktop? then 6 else 8) && generation != 0
    && ValidDescriptor(profile, desktopDecodes, descriptor)
  }

  lemma WrittenIsWellFormed(profile: Profile, desktopDecodes: Payload -> bool, payload: Payload, descriptor: Payload,
                            generation: nat, reason: nat)
    requires IsPayload(profile, desktopDecodes, payload, descriptor, generation, reason)
    ensures WellFormed(profile, desktopDecodes, payload)
    ensures Descriptor(profile, payload) == descriptor && RequiredU64(payload, 9) == Success(generation)
  {
    var last := LastDescriptorKey(profile);
    var n := |descriptor|;
    FindAt(payload, n);
    FindAt(payload, n + 1);
    forall key | 0 <= key <= last
      ensures Find(payload, key).Some?
    {
      FindAt(payload, key);
    }
    UpToIsPrefix(payload, last, n);
    assert payload[..n] == descriptor;
  }

  lemma {:induction false} FoundAtAnIndex(payload: Payload, key: nat) returns (i: nat)
    requires Find(payload, key).Some?
    ensures i < |payload| && payload[i] == (key, Find(payload, key).value)
  {
    if payload[0].0 == key {
      i := 0;
    } else {
      i := FoundAtAnIndex(payload[1..], key);
      i := i + 1;
    }
  }

  lemma WellFormedIsWritten(profile: Profile, desktopDecodes: Payload -> bool, payload: Payload)
    returns (generation: nat, reason: nat)
    requires WellFormed(profile, desktopDecodes, payload)
    ensures IsPayload(profile, desktopDecodes, payload, Descriptor(profile, payload), generation, reason)
  {
    var last := LastDescriptorKey(profile);
    generation, reason := RequiredU64(payload, 9).value, RequiredU64(payload, 10).value;
    DescriptorIsCanonical(payload, last, {9, 10});
    KeyAtItsIndex(payload, last, {9, 10}, last);
    var i := FoundAtAnIndex(payload, 9);
    var j := FoundAtAnIndex(payload, 10);
    forall k | last + 1 <= k < |payload|
      ensures payload[k].0 == 9 || payload[k].0 == 10
    {
      AscendingBeyond(payload, last, k);
    }
    if |payload| > last + 3 {
      AscendingBeyond(payload, last + 1, last + 2);
      AscendingBeyond(payload, last + 2, last + 3);
      assert false;
    }
    assert last < i < j < |payload|;
    assert payload == payload[..last + 1] + [payload[last + 1], payload[last + 2]];
  }

  /** A well-formed payload is a descriptor of the profile followed by a generation that is not zero and
      a reason, and nothing else. */
  lemma PayloadIsExact(profile: Profile, desktopDecodes: Payload -> bool, payload: Payload)
    ensures WellFormed(profile, desktopDecodes, payload) <==>
            exists descriptor, generation, reason ::
              IsPayload(profile, desktopDecodes, payload, descriptor, generation, reason)
  {
    if WellFormed(profile, desktopDecodes, payload) {
      var generation, reason := WellFormedIsWritten(profile, desktopDecodes, payload);
    }
    if descriptor, generation, reason :|
        IsPayload(profile, desktopDecodes, payload, descriptor, generation, reason) {
      WrittenIsWellFormed(profile, desktopDecodes, payload, descriptor, generation, reason);
    }
  }

  /** A terminal descriptor, entry by entry: six dimensions that are not zero, the settle flag, the one
      anchor mode supported and a number of anchors. */
  ghost predicate IsTerminal(d: Payload, dimensions: seq<nat>, settled: bool, anchors: nat) {
    && |dimensions| == 6 && (forall k :: 0 <= k < 6 ==> dimensions[k] > 0) && anchors > 0
    && d == [(0, Unsigned(dimensions[0])), (1, Unsigned(dimensions[1])), (2, Unsigned(dimensions[2])),
             (3, Unsigned(dimensions[3])), (4, Unsigned(dimensions[4])), (5, Unsigned(dimensions[5])),
             (6, Bool(settled)), (7, Unsigned(3)), (8, Unsigned(anchors))]
  }

  lemma {:induction false} FindInExactKeys(d: Payload, last: nat, key: nat)
    requires ExactKeys(d, last) && key <= last
    ensures Find(d, key) == Some(d[key].1)
  {
    FindAt(d, key);
  }

  lemma TerminalIsExact(d: Payload)
    ensures ValidTerminal(d) <==> exists dimensions, settled, anchors :: IsTerminal(d, dimensions, settled, anchors)
  {
    if ExactKeys(d, 8) {
      forall key | 0 <= key <= 8
        ensures Find(d, key) == Some(d[key].1)
      {
        FindInExactKeys(d, 8, key);
      }
    }
    if ValidTerminal(d) {
      forall key | 0 <= key <= 5
        ensures d[key].1.Unsigned? && d[key].1.n > 0
      {
        assert RequiredU64(d, key).Success? && RequiredU64(d, key).value != 0;
      }
      var dimensions := [d[0].1.n, d[1].1.n, d[2].1.n, d[3].1.n, d[4].1.n, d[5].1.n];
      assert IsTerminal(d, dimensions, d[6].1.b, d[8].1.n);
    }
  }

  /** Terminal descriptors are these, desktop descriptors those that the decoder takes, and there is no
      other kind. */
  lemma DescriptorsAreExact(profile: Profile, desktopDecodes: Payload -> bool, d: Payload)
    ensures ValidDescriptor(profile, desktopDecodes, d) <==>
              || (profile == Desktop && desktopDecodes(d))
              || (profile == Terminal
                  && exists dimensions, settled, anchors :: IsTerminal(d, dimensions, settled, anchors))
  {
    TerminalIsExact(d);
  }

  /** The settle flag of a canonical descriptor is its sixth entry on a desktop and its seventh on a
      terminal, and the geometry is the rest. */
  lemma SettleFlagIsExact(profile: Profile, d: Payload, flag: nat)
    requires ExactKeys(d, if profile.Desktop? then 6 else 8) && flag == if profile.Desktop? then 5 else 6
    ensures DescriptorSettled(profile, d) == if d[flag].1.Bool? then Success(d[flag].1.b) else Failure(BadField)
    ensures Geometry(profile, d) == d[..flag] + d[flag + 1..]
  {
    FindAt(d, flag);
    WithoutOne(d, flag, flag);
  }

  lemma {:induction false} WithoutOne(d: Payload, key: nat, i: nat)
    requires i < |d| && d[i].0 == key && forall k :: 0 <= k < |d| && k != i ==> d[k].0 != key
    ensures Without(d, key) == d[..i] + d[i + 1..]
  {
    if i == 0 {
      WithoutNone(d[1..], key);
    } else {
      WithoutOne(d[1..], key, i - 1);
    }
  }

  lemma {:induction false} WithoutNone(d: Payload, key: nat)
    requires forall k :: 0 <= k < |d| ==> d[k].0 != key
    ensures Without(d, key) == d
  {
    if d != [] {
      WithoutNone(d[1..], key);
    }
  }

  /** Any number of payloads applied in turn; refused ones are included. */
  datatype Run = Start(initial: Target) | Then(before: Run, payload: Payload) {
    function State(desktopDecodes: Payload -> bool): Target {
      match this
      case Start(initial) => initial
      case Then(before, payload) =>
        var t := before.State(desktopDecodes);
        var next := Apply(t, desktopDecodes, payload);
        if next.Success? then next.value else t
    }

    ghost predicate Extends(earlier: Run) { this == earlier || (Then? && before.Extends(earlier)) }
  }

  /** Between any two moments of a run the snapshot either is the very same or its (generation,
      settled) pair has strictly grown; and two snapshots of one generation have identical
      geometry. So the target truth is a function of the pair. */
  lemma {:induction false} TruthIsAFunctionOfItsGeneration(run: Run, earlier: Run, desktopDecodes: Payload -> bool)
    requires run.Extends(earlier)
    ensures var was, now := earlier.State(desktopDecodes), run.State(desktopDecodes);
      && now.profile == was.profile
      && (now == was || Before(was.generation, IsSettled(was.profile, was.descriptor),
                                 now.generation, IsSettled(now.profile, now.descriptor)))
      && (now.generation == was.generation ==>
            Geometry(was.profile, was.descriptor) == Geometry(now.profile, now.descriptor))
  {
    if run != earlier {
      TruthIsAFunctionOfItsGeneration(run.before, earlier, desktopDecodes);
      var t := run.before.State(desktopDecodes);
      AcceptanceIsExact(t, desktopDecodes, run.payload);
      var next := Apply(t, desktopDecodes, run.payload);
      if next.Success? {
        assert next.value.descriptor == Descriptor(t.profile, run.payload);
      }
    }
  }

  /** Every accepted snapshot carries exactly the canonical keys of its profile. */
  lemma AcceptedIsCanonical(t: Target, desktopDecodes: Payload -> bool, payload: Payload)
    requires Apply(t, desktopDecodes, payload).Success?
    ensures var next := Apply(t, desktopDecodes, payload).value;
      && ExactKeys(next.descriptor, LastDescriptorKey(t.profile))
      && next.descriptor <= payload
  {
    DescriptorIsCanonical(payload, LastDescriptorKey(t.profile), {9, 10});
  }

  /** Every snapshot after the first is one the validator admitted, so no unvalidated descriptor
      is ever cached. */
  lemma {:induction false} SnapshotsStayValid(run: Run, earlier: Run, desktopDecodes: Payload -> bool)
    requires run.Extends(earlier)
    requires var t := earlier.State(desktopDecodes); ValidDescriptor(t.profile, desktopDecodes, t.descriptor)
    ensures var t := run.State(desktopDecodes); ValidDescriptor(t.profile, desktopDecodes, t.descriptor)
  {
    if run != earlier {
      SnapshotsStayValid(run.before, earlier, desktopDecodes);
    }
  }
}
