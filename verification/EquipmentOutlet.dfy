/**
 From a device's switch binding to the physical outlet (internal/equipment/outlet.go): the catalog of
 known switches says which slot a switch is, whatever slot the device is filed under.
 */
module EquipmentOutlet {
  import opened Wrappers
  import opened EquipmentModel

  /** The switches of slots 1 to 18. */
  const CATALOG: seq<string> := [
    "switch.tp_link_power_strip_3a31_1_dmp_40zao_lang", "switch.tp_link_power_strip_3a31_2_leng_shui_ji_ma_da",
    "switch.tp_link_power_strip_3a31_3_k7_prodeng", "switch.tp_link_power_strip_3a31_4_zhu_ma",
    "switch.tp_link_power_strip_3a31_5_dan_bai_ji", "switch.tp_link_power_strip_3a31_6_ekoraljian_kong",
    "switch.tp_link_power_strip_3f2d_07_kong", "switch.tp_link_power_strip_3f2d_08_ekoraljian_kong",
    "switch.tp_link_power_strip_3f2d_09_shan_hu_xiong_juan_mian_ji", "switch.tp_link_power_strip_3f2d_10_kong",
    "switch.tp_link_power_strip_3f2d_11_hong_hai_dan_bai_ji", "switch.tp_link_power_strip_3f2d_12_dmp_40zao_lang",
    "switch.tp_link_power_strip_bfb9_13_dmp40l", "switch.tp_link_power_strip_bfb9_14_di_gang_dlw20",
    "switch.tp_link_power_strip_bfb9_15_di_ding_ji", "switch.tp_link_power_strip_bfb9_16_kong",
    "switch.tp_link_power_strip_bfb9_17_kong", "switch.tp_link_power_strip_bfb9_18_kong"]

  datatype Outlet = Outlet(strip: PowerStrip, index: int)

  /** The first strip that has the slot. */
  function StripWith(strips: seq<PowerStrip>, slot: int): Option<Outlet> {
    if strips == [] then None
    else if Covers(strips[0], slot) then Some(Outlet(strips[0], slot - strips[0].slotStart))
    else StripWith(strips[1..], slot)
  }

  /** The first catalog entry from k on that is the switch and lies on a strip. */
  function OutletFrom(catalog: seq<string>, k: nat, strips: seq<PowerStrip>, entity: string): Option<Outlet>
    requires k <= |catalog|
    decreases |catalog| - k
  {
    if k == |catalog| then None
    else if catalog[k] == entity && StripWith(strips, k + 1).Some? then StripWith(strips, k + 1)
    else OutletFrom(catalog, k + 1, strips, entity)
  }

  function PhysicalOutlet(s: Snapshot, d: Device): Option<Outlet> {
    OutletFrom(CATALOG, 0, s.strips, d.entity)
  }

  // ---- where a slot is ----

  lemma {:induction false} StripFound(strips: seq<PowerStrip>, slot: int) returns (i: nat)
    requires StripWith(strips, slot).Some?
    ensures i < |strips| && Covers(strips[i], slot)
    ensures StripWith(strips, slot) == Some(Outlet(strips[i], slot - strips[i].slotStart))
  {
    if Covers(strips[0], slot) {
      i := 0;
    } else {
      var j := StripFound(strips[1..], slot);
      i := j + 1;
    }
  }

  lemma {:induction false} CoveredIsFound(strips: seq<PowerStrip>, slot: int)
    ensures StripWith(strips, slot).Some? <==> Covered(strips, slot)
  {
    if strips != [] {
      CoveredIsFound(strips[1..], slot);
      if Covered(strips[1..], slot) {
        var i :| 0 <= i < |strips[1..]| && Covers(strips[1..][i], slot);
        assert Covers(strips[i + 1], slot);
      }
    }
  }

  /** On fitting strips, strip and outlet number determine the slot. */
  lemma SlotOfOutlet(strips: seq<PowerStrip>, a: int, b: int)
    requires StripsFit(strips) && StripWith(strips, a).Some? && StripWith(strips, b).Some?
    requires StripWith(strips, a).value.strip.id == StripWith(strips, b).value.strip.id
    requires StripWith(strips, a).value.index == StripWith(strips, b).value.index
    ensures a == b
  {
    var i := StripFound(strips, a);
    var j := StripFound(strips, b);
    assert i < j ==> StripsApart(strips[i], strips[j]);
    assert j < i ==> StripsApart(strips[j], strips[i]);
  }

  lemma {:induction false} OutletFound(catalog: seq<string>, k: nat, strips: seq<PowerStrip>, entity: string) returns (n: nat)
    requires k <= |catalog| && OutletFrom(catalog, k, strips, entity).Some?
    ensures k <= n < |catalog| && catalog[n] == entity
    ensures StripWith(strips, n + 1) == OutletFrom(catalog, k, strips, entity)
    decreases |catalog| - k
  {
    if catalog[k] == entity && StripWith(strips, k + 1).Some? {
      n := k;
    } else {
      n := OutletFound(catalog, k + 1, strips, entity);
    }
  }

  lemma {:induction false} CatalogedIsFound(catalog: seq<string>, k: nat, n: nat, strips: seq<PowerStrip>, entity: string)
    requires k <= n < |catalog| && catalog[n] == entity && StripWith(strips, n + 1).Some?
    ensures OutletFrom(catalog, k, strips, entity).Some?
    decreases n - k
  {
    if k < n {
      CatalogedIsFound(catalog, k + 1, n, strips, entity);
    }
  }

  lemma OutletsApart(catalog: seq<string>, strips: seq<PowerStrip>, e: string, f: string)
    requires StripsFit(strips) && e != f
    requires OutletFrom(catalog, 0, strips, e).Some? && OutletFrom(catalog, 0, strips, f).Some?
    ensures var a, b := OutletFrom(catalog, 0, strips, e).value, OutletFrom(catalog, 0, strips, f).value;
      a.strip.id != b.strip.id || a.index != b.index
  {
    var n := OutletFound(catalog, 0, strips, e);
    var m := OutletFound(catalog, 0, strips, f);
    var a, b := OutletFrom(catalog, 0, strips, e).value, OutletFrom(catalog, 0, strips, f).value;
    if a.strip.id == b.strip.id && a.index == b.index {
      SlotOfOutlet(strips, n + 1, m + 1);
    }
  }

  lemma InCatalog(catalog: seq<string>, strips: seq<PowerStrip>, e: string)
    requires |catalog| == SLOTS && forall slot :: 1 <= slot <= SLOTS ==> Covered(strips, slot)
    ensures OutletFrom(catalog, 0, strips, e).Some? <==> e in catalog
    ensures OutletFrom(catalog, 0, strips, e).Some? ==>
      var o := OutletFrom(catalog, 0, strips, e).value; o.strip in strips && 0 <= o.index <= o.strip.slotEnd - o.strip.slotStart
  {
    if OutletFrom(catalog, 0, strips, e).Some? {
      var n := OutletFound(catalog, 0, strips, e);
      var i := StripFound(strips, n + 1);
    }
    if e in catalog {
      var n :| 0 <= n < |catalog| && catalog[n] == e;
      assert Covered(strips, n + 1);
      CoveredIsFound(strips, n + 1);
      CatalogedIsFound(catalog, 0, n, strips, e);
    }
  }

  // ---- main results ----

  /** In a valid map two devices never resolve to the same outlet of the same strip. */
  lemma OutletsAreDistinct(s: Snapshot, i: nat, j: nat)
    requires Valid(s) && i < j < |s.devices|
    requires PhysicalOutlet(s, s.devices[i]).Some? && PhysicalOutlet(s, s.devices[j]).Some?
    ensures var a, b := PhysicalOutlet(s, s.devices[i]).value, PhysicalOutlet(s, s.devices[j]).value;
      a.strip.id != b.strip.id || a.index != b.index
  {
    assert DevicesApart(s.devices[i], s.devices[j]);
    OutletsApart(CATALOG, s.strips, s.devices[i].entity, s.devices[j].entity);
  }

  /** In a valid map a device resolves exactly when its switch is in the catalog, and then to an outlet its strip has. */
  lemma CatalogDecides(s: Snapshot, d: Device)
    requires Valid(s)
    ensures PhysicalOutlet(s, d).Some? <==> d.entity in CATALOG
    ensures PhysicalOutlet(s, d).Some? ==>
      var o := PhysicalOutlet(s, d).value; o.strip in s.strips && 0 <= o.index <= o.strip.slotEnd - o.strip.slotStart
  {
    InCatalog(CATALOG, s.strips, d.entity);
  }

  // ---- the number in the switch's name ----

  /** Where the number starts in "switch.tp_link_power_strip_", four letters for the strip and an underscore. */
  const NUMBER_AT := 32

  predicate Digit(c: char) {
    '0' <= c <= '9'
  }

  function Value(c: char): nat
    requires Digit(c)
  {
    (c as int) - ('0' as int)
  }

  /** The one or two digits there, up to the next underscore. */
  function NamedOutlet(entity: string): Option<nat> {
    if |entity| < NUMBER_AT + 3 || entity[NUMBER_AT - 1] != '_' || !Digit(entity[NUMBER_AT]) then None
    else if entity[NUMBER_AT + 1] == '_' then Some(Value(entity[NUMBER_AT]))
    else if Digit(entity[NUMBER_AT + 1]) && entity[NUMBER_AT + 2] == '_'
    then Some(10 * Value(entity[NUMBER_AT]) + Value(entity[NUMBER_AT + 1]))
    else None
  }

  lemma FirstStripNames(n: nat)
    requires n < 6
    ensures NamedOutlet(CATALOG[n]) == Some(n + 1)
  {
  }

  lemma SecondStripNames(n: nat)
    requires 6 <= n < 12
    ensures NamedOutlet(CATALOG[n]) == Some(n + 1)
  {
  }

  lemma ThirdStripNames(n: nat)
    requires 12 <= n < 18
    ensures NamedOutlet(CATALOG[n]) == Some(n + 1)
  {
  }

  /** In a valid map a device resolves to the slot that the name of its switch carries. */
  lemma ResolvesToNamedOutlet(s: Snapshot, d: Device)
    requires Valid(s) && PhysicalOutlet(s, d).Some?
    ensures var o := PhysicalOutlet(s, d).value; NamedOutlet(d.entity) == Some(o.strip.slotStart + o.index)
  {
    var n := OutletFound(CATALOG, 0, s.strips, d.entity);
    var i := StripFound(s.strips, n + 1);
    if n < 6 { FirstStripNames(n); } else if n < 12 { SecondStripNames(n); } else { ThirdStripNames(n); }
  }
}
