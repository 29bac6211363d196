/**
 * A mesh's `material`: one THREE.Material or an array of them, one per
 * geometry group, read and written slot by slot (`getObjectMaterial`,
 * `setObjectMaterial`).
 */
module Materials {
  import opened Wrappers

  /** A THREE.Material: `id` is its object identity, `uuid` the key of `editor.materials`. */
  datatype Material = Material(id: nat, uuid: string)

  /** `mesh.material`: a single material or an array of them. */
  datatype MeshMaterial = Single(material: Material) | Slots(materials: seq<Material>)

  /** What `getObjectMaterial` hands back; `Missing` is the `undefined` of an index past the array. */
  datatype MaterialValue = One(material: Material) | Many(materials: seq<Material>) | Missing

  /**
   * `getObjectMaterial(object, slot)` on `object.material`: a single material
   * comes back whatever the slot; an array gives its entry at `slot`, or the
   * whole array when no slot is given.
   */
  function GetObjectMaterial(material: MeshMaterial, slot: Option<int>): (r: MaterialValue)
    ensures material.Single? ==> r == One(material.material)
    ensures material.Slots? && slot.None? ==> r == Many(material.materials)
    ensures material.Slots? && slot.Some? ==>
      if 0 <= slot.value < |material.materials| then r == One(material.materials[slot.value]) else r == Missing
  {
    match material
    case Single(m) => One(m)
    case Slots(ms) =>
      if slot.None? then Many(ms)
      else if 0 <= slot.value < |ms| then One(ms[slot.value])
      else Missing
  }

  /** `setObjectMaterial` writes a single slot only into a non-empty array, and only when a slot is given. */
  predicate WritesSlot(material: MeshMaterial, slot: Option<int>)
  {
    material.Slots? && |material.materials| > 0 && slot.Some?
  }

  /** The slot JavaScript would write lies inside the array. */
  predicate SlotInRange(material: MeshMaterial, slot: Option<int>)
  {
    WritesSlot(material, slot) ==> 0 <= slot.value < |material.materials|
  }

  /**
   * The material after `setObjectMaterial(object, slot, m)`.  Reading the
   * same slot back gives `m`; a slot write keeps the array's length and every
   * other slot; otherwise (a single material, an empty array, no slot) the
   * whole material becomes `m`.
   */
  function Assigned(material: MeshMaterial, slot: Option<int>, m: Material): (r: MeshMaterial)
    requires SlotInRange(material, slot)
    ensures GetObjectMaterial(r, slot) == One(m)
    ensures WritesSlot(material, slot) ==>
      && r.Slots? && |r.materials| == |material.materials|
      && forall i :: 0 <= i < |r.materials| && i != slot.value ==> r.materials[i] == material.materials[i]
    ensures !WritesSlot(material, slot) ==> r == Single(m)
  {
    if WritesSlot(material, slot) then Slots(material.materials[slot.value := m])
    else Single(m)
  }

  /** A THREE.Mesh, as far as its material goes. */
  class Mesh {
    var material: MeshMaterial

    constructor (material: MeshMaterial)
      ensures this.material == material
    {
      this.material := material;
    }

    /** `setObjectMaterial(this, slot, newMaterial)`. */
    method SetObjectMaterial(slot: Option<int>, newMaterial: Material)
      requires SlotInRange(material, slot)
      modifies this
      ensures material == Assigned(old(material), slot, newMaterial)
    {
      if material.Slots? && |material.materials| > 0 && slot.Some? {
        material := Slots(material.materials[slot.value := newMaterial]);
      } else {
        material := Single(newMaterial);
      }
    }
  }

  /** Writing a slot twice keeps only the second write; the first leaves no trace. */
  lemma {:induction false} LastWriteWins(material: MeshMaterial, slot: Option<int>, m1: Material, m2: Material)
    requires SlotInRange(material, slot)
    ensures SlotInRange(Assigned(material, slot, m1), slot)
    ensures Assigned(Assigned(material, slot, m1), slot, m2) == Assigned(material, slot, m2)
  {
    if WritesSlot(material, slot) {
      var once := Assigned(material, slot, m1);
      assert once.materials == material.materials[slot.value := m1];
      assert once.materials[slot.value := m2] == material.materials[slot.value := m2];
    }
  }

}
