/**
 * The bond drain run on every poll: each bond record, in list order, has its
 * IRK formatted and (if it is new) published, then its peer is disconnected
 * and its bond removed. Given here as what one drain of a bond list issues,
 * publishes and leaves in the stack.
 */
module BondDrain {
  import opened Wrappers
  import opened HexFormat
  import opened Ble

  /** The text a bond's IRK is reported as. */
  function IrkString(b: Bond): (s: string)
    ensures |s| == 32
  {
    HexReversed(b.irk)
  }

  /** The two commands issued for one bond, whatever the publish outcome. */
  function BondCommands(b: Bond): seq<Command> {
    [Disconnect(b.bdAddr), RemoveBondDevice(b.bdAddr)]
  }

  /** The commands a drain of `list` issues: the pairs of its bonds, in list order. */
  function DrainCommands(list: seq<Bond>): (cmds: seq<Command>)
    ensures |cmds| == 2 * |list|
  {
    if list == [] then [] else DrainCommands(list[..|list| - 1]) + BondCommands(list[|list| - 1])
  }

  /** The state of the sensor after one formatted IRK: it publishes only a value that differs from what it shows. */
  function PublishIrk(sensor: Option<string>, irkStr: string): Option<string> {
    if sensor.Some? && sensor.value != irkStr then Some(irkStr) else sensor
  }

  /** The publish call (none or one) one formatted IRK causes. */
  function PublishCalls(sensor: Option<string>, irkStr: string): seq<string> {
    if sensor.Some? && sensor.value != irkStr then [irkStr] else []
  }

  /** The sensor (None when no sensor is configured) after a drain of `list`. */
  function SensorAfter(sensor: Option<string>, list: seq<Bond>): Option<string> {
    if list == [] then sensor
    else PublishIrk(SensorAfter(sensor, list[..|list| - 1]), IrkString(list[|list| - 1]))
  }

  /** The values pushed to the sensor during a drain of `list`, in order. */
  function Publications(sensor: Option<string>, list: seq<Bond>): seq<string> {
    if list == [] then []
    else
      var init := list[..|list| - 1];
      Publications(sensor, init) + PublishCalls(SensorAfter(sensor, init), IrkString(list[|list| - 1]))
  }

  /** The stack accepted the bond removal issued for the i-th bond of the list (the (2i+1)-th command). */
  predicate RemovalAccepted(replies: seq<Status>, i: nat) {
    ReplyAt(replies, 2 * i + 1).Ok?
  }

  /** The stack's bonds after a drain of `list`: each accepted removal deletes that address. */
  function BondsAfterDrain(bonds: seq<Bond>, list: seq<Bond>, replies: seq<Status>): seq<Bond> {
    if list == [] then bonds
    else
      var before := BondsAfterDrain(bonds, list[..|list| - 1], replies);
      if RemovalAccepted(replies, |list| - 1) then WithoutAddr(before, list[|list| - 1].bdAddr) else before
  }

  /** Everything a drain touches: the stack's trace, reply script and bonds, the sensor and the values pushed to it. */
  datatype Drain = Drain(trace: seq<Command>, replies: seq<Status>, bonds: seq<Bond>, sensor: Option<string>, published: seq<string>)

  /** One bond drained: its IRK published if new, its peer disconnected, its bond removed if the stack accepts. */
  function DrainOne(d: Drain, b: Bond): Drain {
    Drain(d.trace + BondCommands(b), Drop(d.replies, 2),
          if ReplyAt(d.replies, 1).Ok? then WithoutAddr(d.bonds, b.bdAddr) else d.bonds,
          PublishIrk(d.sensor, IrkString(b)), d.published + PublishCalls(d.sensor, IrkString(b)))
  }

  /** The bonds of `list` drained one after the other, starting from `d`. */
  function DrainAll(d: Drain, list: seq<Bond>): Drain {
    if list == [] then d else DrainOne(DrainAll(d, list[..|list| - 1]), list[|list| - 1])
  }

  /** Draining a list bond by bond issues, leaves and publishes what the drain functions above say. */
  lemma DrainAllIsDrain(d: Drain, list: seq<Bond>)
    ensures DrainAll(d, list).trace == d.trace + DrainCommands(list)
    ensures DrainAll(d, list).replies == Drop(d.replies, 2 * |list|)
    ensures DrainAll(d, list).bonds == BondsAfterDrain(d.bonds, list, d.replies)
    ensures DrainAll(d, list).sensor == SensorAfter(d.sensor, list)
    ensures DrainAll(d, list).published == d.published + Publications(d.sensor, list)
  {
    DrainAllTrace(d, list);
    DrainAllBonds(d, list);
    DrainAllPublished(d, list);
  }

  lemma {:induction false} DrainAllTrace(d: Drain, list: seq<Bond>)
    ensures DrainAll(d, list).trace == d.trace + DrainCommands(list)
  {
    if list != [] {
      var init := list[..|list| - 1];
      DrainAllTrace(d, init);
      assert (d.trace + DrainCommands(init)) + BondCommands(list[|list| - 1]) == d.trace + DrainCommands(list);
    }
  }

  lemma {:induction false} DrainAllReplies(d: Drain, list: seq<Bond>)
    ensures DrainAll(d, list).replies == Drop(d.replies, 2 * |list|)
  {
    if list != [] {
      var i := |list| - 1;
      DrainAllReplies(d, list[..i]);
      DropDrop(d.replies, 2 * i, 2);
    }
  }

  lemma {:induction false} DrainAllBonds(d: Drain, list: seq<Bond>)
    ensures DrainAll(d, list).replies == Drop(d.replies, 2 * |list|)
    ensures DrainAll(d, list).bonds == BondsAfterDrain(d.bonds, list, d.replies)
  {
    DrainAllReplies(d, list);
    if list != [] {
      var i := |list| - 1;
      DrainAllBonds(d, list[..i]);
      DropDrop(d.replies, 2 * i, 1);
    }
  }

  lemma {:induction false} DrainAllSensor(d: Drain, list: seq<Bond>)
    ensures DrainAll(d, list).sensor == SensorAfter(d.sensor, list)
  {
    if list != [] {
      DrainAllSensor(d, list[..|list| - 1]);
    }
  }

  lemma {:induction false} DrainAllPublished(d: Drain, list: seq<Bond>)
    ensures DrainAll(d, list).sensor == SensorAfter(d.sensor, list)
    ensures DrainAll(d, list).published == d.published + Publications(d.sensor, list)
  {
    DrainAllSensor(d, list);
    if list != [] {
      var init := list[..|list| - 1];
      DrainAllPublished(d, init);
      var calls := PublishCalls(SensorAfter(d.sensor, init), IrkString(list[|list| - 1]));
      assert (d.published + Publications(d.sensor, init)) + calls == d.published + Publications(d.sensor, list);
    }
  }

  /** An empty bond list issues nothing and leaves the sensor and the stack alone. */
  lemma EmptyDrainIsNoOp(sensor: Option<string>, bonds: seq<Bond>, replies: seq<Status>)
    ensures DrainCommands([]) == [] && SensorAfter(sensor, []) == sensor && Publications(sensor, []) == []
    ensures BondsAfterDrain(bonds, [], replies) == bonds
  {
  }

  /** Commands 2i and 2i+1 are the disconnect and the bond removal of the i-th bond. */
  lemma {:induction false} DrainCommandsAt(list: seq<Bond>, i: nat)
    requires i < |list|
    ensures DrainCommands(list)[2 * i] == Disconnect(list[i].bdAddr)
    ensures DrainCommands(list)[2 * i + 1] == RemoveBondDevice(list[i].bdAddr)
  {
    var init := list[..|list| - 1];
    if i < |list| - 1 {
      DrainCommandsAt(init, i);
      assert init[i] == list[i];
    }
  }

  /** Every bond of the list gets a bond-removal command. */
  lemma EveryBondRemoved(list: seq<Bond>)
    ensures forall b :: b in list ==> Disconnect(b.bdAddr) in DrainCommands(list) && RemoveBondDevice(b.bdAddr) in DrainCommands(list)
  {
  }

  lemma {:induction false} SensorPresenceKept(sensor: Option<string>, list: seq<Bond>)
    ensures SensorAfter(sensor, list).Some? == sensor.Some?
    ensures sensor.None? ==> Publications(sensor, list) == []
  {
    if list != [] {
      SensorPresenceKept(sensor, list[..|list| - 1]);
    }
  }

  /**
   * With a sensor, it ends up showing the IRK of the last bond in the list;
   * without one nothing is ever published.
   */
  lemma SensorShowsLastIrk(sensor: Option<string>, list: seq<Bond>)
    requires list != []
    ensures sensor.Some? ==> SensorAfter(sensor, list) == Some(IrkString(list[|list| - 1]))
    ensures sensor.None? ==> SensorAfter(sensor, list) == None && Publications(sensor, list) == []
  {
  }

  /** At most one publish per bond, and every published value is the IRK of a listed bond. */
  lemma {:induction false} PublicationsAreListedIrks(sensor: Option<string>, list: seq<Bond>)
    ensures |Publications(sensor, list)| <= |list|
    ensures forall p :: p in Publications(sensor, list) ==> exists b :: b in list && p == IrkString(b)
  {
    if list != [] {
      var init := list[..|list| - 1];
      PublicationsAreListedIrks(sensor, init);
      forall p | p in Publications(sensor, list)
        ensures exists b :: b in list && p == IrkString(b)
      {
        if p in Publications(sensor, init) {
          var b :| b in init && p == IrkString(b);
          assert b in list;
        } else {
          assert list[|list| - 1] in list;
        }
      }
    }
  }

  /** A bond whose IRK the sensor already shows publishes nothing; a different one publishes exactly once. */
  lemma ChangeDetection(state: string, b: Bond)
    ensures Publications(Some(state), [b]) == if state == IrkString(b) then [] else [IrkString(b)]
    ensures SensorAfter(Some(state), [b]) == Some(IrkString(b))
  {
  }

  /** When the sensor shows the IRK k, a bond is published exactly when its IRK is a different key. */
  lemma PublishIffNewKey(k: Irk, b: Bond)
    ensures Publications(Some(HexReversed(k)), [b]) == [] <==> b.irk == k
  {
    ChangeDetection(HexReversed(k), b);
    HexReversedInjective(k, b.irk);
  }

  /** A bond survives the drain exactly when no accepted removal was for its address. */
  lemma {:induction false} BondsAfterDrainMembers(bonds: seq<Bond>, list: seq<Bond>, replies: seq<Status>, b: Bond)
    ensures b in BondsAfterDrain(bonds, list, replies) <==>
      b in bonds && forall i :: 0 <= i < |list| && RemovalAccepted(replies, i) ==> list[i].bdAddr != b.bdAddr
  {
    if list != [] {
      var init := list[..|list| - 1];
      BondsAfterDrainMembers(bonds, init, replies, b);
      assert forall i :: 0 <= i < |init| ==> init[i] == list[i];
    }
  }

  /** When every removal is accepted, draining the stack's own bond list leaves it with no bonds. */
  lemma DrainEmptiesBondList(bonds: seq<Bond>, replies: seq<Status>)
    requires forall i :: 0 <= i < |bonds| ==> RemovalAccepted(replies, i)
    ensures BondsAfterDrain(bonds, bonds, replies) == []
  {
    var after := BondsAfterDrain(bonds, bonds, replies);
    forall i | 0 <= i < |bonds|
      ensures bonds[i] !in after
    {
      BondsAfterDrainMembers(bonds, bonds, replies, bonds[i]);
    }
    if after != [] {
      BondsAfterDrainMembers(bonds, bonds, replies, after[0]);
      assert false;
    }
  }
}
