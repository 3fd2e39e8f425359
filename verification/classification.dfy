/**
  Event classification in `TEventBuilder::EventBuild`
  (src/TEventBuilder.cpp): role multiplicities, the ADC values fed to the
  fission test, and the fission flag.
 */
module Classification {
  import opened EventData
  import opened HitTypes

  /** ADC threshold both silicon sides must exceed for a fission event. */
  const FissionThreshold: int := 1500

  /**
    Which energy updates `frontADC`/`backADC` when a silicon hit is counted.
    `AnchorEnergy` is what the program does: every update takes the trigger
    hit's energy. `MemberEnergy` is the evident intent: each silicon hit's
    own energy, so the ADC becomes the largest silicon energy of the event.
   */
  datatype AdcRule = AnchorEnergy | MemberEnergy

  function Max(a: int, b: int): int
  {
    if a >= b then a else b
  }

  /** Number of hits of role t. */
  function CountRole(hits: seq<Hit>, t: HitType): (n: nat)
    ensures n <= |hits|
  {
    if hits == [] then 0
    else (if GetHitType(hits[0].mod) == t then 1 else 0) + CountRole(hits[1..], t)
  }

  lemma {:induction false} CountRoleAppend(a: seq<Hit>, b: seq<Hit>, t: HitType)
    ensures CountRole(a + b, t) == CountRole(a, t) + CountRole(b, t)
  {
    if a == [] {
      assert a + b == b;
    } else {
      assert (a + b)[1..] == a[1..] + b;
      CountRoleAppend(a[1..], b, t);
    }
  }

  /** A role is counted exactly when some hit has it. */
  lemma {:induction false} CountRolePositive(hits: seq<Hit>, t: HitType)
    ensures CountRole(hits, t) > 0 <==> exists k :: 0 <= k < |hits| && GetHitType(hits[k].mod) == t
  {
    if hits != [] {
      CountRolePositive(hits[1..], t);
      if exists k :: 0 <= k < |hits[1..]| && GetHitType(hits[1..][k].mod) == t {
        var k :| 0 <= k < |hits[1..]| && GetHitType(hits[1..][k].mod) == t;
        assert hits[k + 1] == hits[1..][k];
      }
      if exists k :: 0 <= k < |hits| && GetHitType(hits[k].mod) == t {
        var k :| 0 <= k < |hits| && GetHitType(hits[k].mod) == t;
        if k > 0 {
          assert hits[1..][k - 1] == hits[k];
        }
      }
    }
  }

  /** Each hit is counted in at most one of the four roles. */
  lemma {:induction false} RoleCountsBounded(hits: seq<Hit>)
    ensures CountRole(hits, SiFront) + CountRole(hits, SiBack)
            + CountRole(hits, Gamma) + CountRole(hits, Neutron) <= |hits|
  {
    if hits != [] {
      RoleCountsBounded(hits[1..]);
    }
  }

  /** The energy an update of a role-t ADC takes from hit h. */
  function UpdateEnergy(rule: AdcRule, anchor: Hit, h: Hit): u16
  {
    match rule
    case AnchorEnergy => anchor.energy
    case MemberEnergy => h.energy
  }

  /**
    The ADC of role t after the hits are counted in order, starting from
    `acc`: every hit of role t replaces it by the maximum of itself and the
    update energy.
   */
  function AdcFrom(hits: seq<Hit>, t: HitType, rule: AdcRule, anchor: Hit, acc: int): int
  {
    if hits == [] then acc
    else
      var acc' := if GetHitType(hits[0].mod) == t then Max(acc, UpdateEnergy(rule, anchor, hits[0])) else acc;
      AdcFrom(hits[1..], t, rule, anchor, acc')
  }

  /** As written: the ADC is the trigger hit's energy once any role-t hit is counted. */
  lemma {:induction false} AdcFromAnchor(hits: seq<Hit>, t: HitType, anchor: Hit, acc: int)
    ensures AdcFrom(hits, t, AnchorEnergy, anchor, acc)
            == if CountRole(hits, t) > 0 then Max(acc, anchor.energy) else acc
  {
    if hits != [] {
      var acc' := if GetHitType(hits[0].mod) == t then Max(acc, anchor.energy) else acc;
      AdcFromAnchor(hits[1..], t, anchor, acc');
    }
  }

  /** As intended: the ADC is the largest energy among the role-t hits (or `acc`). */
  lemma {:induction false} AdcFromMember(hits: seq<Hit>, t: HitType, anchor: Hit, acc: int)
    ensures var r := AdcFrom(hits, t, MemberEnergy, anchor, acc);
      && acc <= r
      && (forall k :: 0 <= k < |hits| && GetHitType(hits[k].mod) == t ==> hits[k].energy <= r)
      && (r == acc || exists k :: 0 <= k < |hits| && GetHitType(hits[k].mod) == t && hits[k].energy == r)
  {
    if hits != [] {
      var acc' := if GetHitType(hits[0].mod) == t then Max(acc, hits[0].energy) else acc;
      AdcFromMember(hits[1..], t, anchor, acc');
      var r := AdcFrom(hits, t, MemberEnergy, anchor, acc);
      assert r == AdcFrom(hits[1..], t, MemberEnergy, anchor, acc');
      forall k | 0 <= k < |hits| && GetHitType(hits[k].mod) == t
        ensures hits[k].energy <= r
      {
        if k > 0 {
          assert hits[1..][k - 1] == hits[k];
        }
      }
      if r != acc {
        if r == acc' {
          assert GetHitType(hits[0].mod) == t && hits[0].energy == r;
        } else {
          var k :| 0 <= k < |hits[1..]| && GetHitType(hits[1..][k].mod) == t && hits[1..][k].energy == r;
          assert hits[k + 1] == hits[1..][k];
        }
      }
    }
  }

  /**
    The event for a trigger: its hits (the trigger hit first), the
    multiplicities as the program's `uint8_t` counters hold them, and the
    fission flag.
   */
  function Classify(triggerID: u8, hitData: seq<Hit>, rule: AdcRule): (e: Event)
    requires |hitData| > 0
    ensures e.triggerID == triggerID && e.hitData == hitData
  {
    var front := CountRole(hitData, SiFront);
    var back := CountRole(hitData, SiBack);
    var frontADC := AdcFrom(hitData, SiFront, rule, hitData[0], 0);
    var backADC := AdcFrom(hitData, SiBack, rule, hitData[0], 0);
    Event(
      isFissionEvent := ToU8(front) > 0 && ToU8(back) > 0
                        && frontADC > FissionThreshold && backADC > FissionThreshold,
      triggerID := triggerID,
      siFrontMultiplicity := ToU8(front),
      siBackMultiplicity := ToU8(back),
      siMultiplicity := ToU8(front + back),
      gammaMultiplicity := ToU8(CountRole(hitData, Gamma)),
      neutronMultiplicity := ToU8(CountRole(hitData, Neutron)),
      hitData := hitData)
  }

  /** The silicon multiplicity is front plus back, less 256 when the 8-bit counter wraps. */
  lemma SiMultiplicitySum(triggerID: u8, hitData: seq<Hit>, rule: AdcRule)
    requires |hitData| > 0
    ensures var e := Classify(triggerID, hitData, rule);
      || e.siMultiplicity == e.siFrontMultiplicity as int + e.siBackMultiplicity
      || e.siMultiplicity == e.siFrontMultiplicity as int + e.siBackMultiplicity - 0x100
  {
    var e := Classify(triggerID, hitData, rule);
    WrapSum(CountRole(hitData, SiFront), CountRole(hitData, SiBack),
            e.siFrontMultiplicity, e.siBackMultiplicity, e.siMultiplicity);
  }

  /** The four role counters together never exceed the number of hits. */
  lemma RoleMultiplicitiesBounded(triggerID: u8, hitData: seq<Hit>, rule: AdcRule)
    requires |hitData| > 0
    ensures var e := Classify(triggerID, hitData, rule);
      e.siFrontMultiplicity as int + e.siBackMultiplicity + e.gammaMultiplicity
        + e.neutronMultiplicity <= |hitData|
  {
    RoleCountsBounded(hitData);
    ModBelow(CountRole(hitData, SiFront));
    ModBelow(CountRole(hitData, SiBack));
    ModBelow(CountRole(hitData, Gamma));
    ModBelow(CountRole(hitData, Neutron));
  }

  /** Below 256 hits no counter wraps: each is the exact count of its role. */
  lemma MultiplicitiesExact(triggerID: u8, hitData: seq<Hit>, rule: AdcRule)
    requires 0 < |hitData| < 0x100
    ensures var e := Classify(triggerID, hitData, rule);
      && e.siFrontMultiplicity == CountRole(hitData, SiFront)
      && e.siBackMultiplicity == CountRole(hitData, SiBack)
      && e.siMultiplicity == e.siFrontMultiplicity as int + e.siBackMultiplicity
      && e.gammaMultiplicity == CountRole(hitData, Gamma)
      && e.neutronMultiplicity == CountRole(hitData, Neutron)
  {
    RoleCountsBounded(hitData);
  }

  /** Adding after an 8-bit wrap-around wraps the same as wrapping the sum. */
  lemma WrapSum(x: nat, y: nat, wx: int, wy: int, wsum: int)
    requires wx == x % 0x100 && wy == y % 0x100 && wsum == (x + y) % 0x100
    ensures wsum == wx + wy || wsum == wx + wy - 0x100
  {
    var qx, qy := x / 0x100, y / 0x100;
    assert x == qx * 0x100 + wx;
    assert y == qy * 0x100 + wy;
    assert x + y == (qx + qy) * 0x100 + (wx + wy);
    ModShift(qx + qy, wx + wy);
  }

  lemma ModShift(q: int, r: int)
    ensures (q * 0x100 + r) % 0x100 == r % 0x100
  {
  }

  lemma ModBelow(x: nat)
    ensures x % 0x100 <= x
    ensures x < 0x100 ==> x % 0x100 == x
  {
  }

  /**
    As written, the fission flag is: both silicon counters non-zero and the
    trigger hit's own energy above the threshold.
   */
  lemma FissionAsWritten(triggerID: u8, hitData: seq<Hit>)
    requires |hitData| > 0
    ensures var e := Classify(triggerID, hitData, AnchorEnergy);
      e.isFissionEvent <==>
        e.siFrontMultiplicity > 0 && e.siBackMultiplicity > 0 && hitData[0].energy > FissionThreshold
  {
    AdcFromAnchor(hitData, SiFront, hitData[0], 0);
    AdcFromAnchor(hitData, SiBack, hitData[0], 0);
  }

  /**
    As intended, the fission flag is: both silicon counters non-zero, some
    front-silicon hit and some back-silicon hit above the threshold.
   */
  lemma FissionIntended(triggerID: u8, hitData: seq<Hit>)
    requires |hitData| > 0
    ensures var e := Classify(triggerID, hitData, MemberEnergy);
      e.isFissionEvent <==>
        && e.siFrontMultiplicity > 0 && e.siBackMultiplicity > 0
        && (exists k :: 0 <= k < |hitData| && GetHitType(hitData[k].mod) == SiFront
                        && hitData[k].energy > FissionThreshold)
        && (exists k :: 0 <= k < |hitData| && GetHitType(hitData[k].mod) == SiBack
                        && hitData[k].energy > FissionThreshold)
  {
    AdcFromMember(hitData, SiFront, hitData[0], 0);
    AdcFromMember(hitData, SiBack, hitData[0], 0);
  }

  /**
    A gamma-detector trigger of energy 100 with a front and a back silicon
    hit of energy 2000 each: the program does not tag it as fission, the
    intended rule does.
   */
  lemma AnchorEnergyMissesFission()
    ensures var hitData := [Hit(2, 0, 0, 100, 0), Hit(0, 0, 10, 2000, 0), Hit(1, 0, -10, 2000, 0)];
      && !Classify(0, hitData, AnchorEnergy).isFissionEvent
      && Classify(0, hitData, MemberEnergy).isFissionEvent
  {
    var hitData := [Hit(2, 0, 0, 100, 0), Hit(0, 0, 10, 2000, 0), Hit(1, 0, -10, 2000, 0)];
    FissionAsWritten(0, hitData);
    FissionIntended(0, hitData);
    assert GetHitType(hitData[1].mod) == SiFront;
    assert GetHitType(hitData[2].mod) == SiBack;
    assert CountRole(hitData, SiFront) == 1 by {
      assert hitData[1..][1..][1..] == [];
    }
    assert CountRole(hitData, SiBack) == 1 by {
      assert hitData[1..][1..][1..] == [];
    }
  }
}
