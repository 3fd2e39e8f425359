/**
  Detector roles (the `HitType` enumeration of include/TEventBuilder.hpp)
  and their derivation from the module number.
 */
module HitTypes {
  import opened EventData

  /** Exactly the five roles the program distinguishes. */
  datatype HitType = SiFront | SiBack | Gamma | Neutron | Unknown

  /**
    Module 0 is the front silicon, module 1 the back silicon, modules 2..4
    the gamma detectors, 5..9 the neutron detectors; anything else is
    unknown (the program also prints a diagnostic, left out here).
   */
  function GetHitType(mod: u8): (t: HitType)
    ensures t == SiFront <==> mod == 0
    ensures t == SiBack <==> mod == 1
    ensures t == Gamma <==> 2 <= mod <= 4
    ensures t == Neutron <==> 5 <= mod <= 9
    ensures t == Unknown <==> 10 <= mod
  {
    if mod == 0 then SiFront
    else if mod == 1 then SiBack
    else if 2 <= mod <= 4 then Gamma
    else if 5 <= mod <= 9 then Neutron
    else Unknown
  }
}
