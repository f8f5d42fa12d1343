/**
 * The common record shape of package `models` and its two persistence
 * hooks. The clock (`time.Now`) and the id generator
 * (`primitive.NewObjectID`) are parameters of the hooks.
 */
module Models {

  type Byte = b: int | 0 <= b < 256

  /** A MongoDB ObjectID: twelve bytes. */
  type ObjectId = b: seq<Byte> | |b| == 12 witness [0, 0, 0, 0, 0, 0, 0, 0, 0, 0, 0, 0]

  /** `primitive.NilObjectID`, the zero value of an ObjectID. */
  const NilObjectId: ObjectId := [0, 0, 0, 0, 0, 0, 0, 0, 0, 0, 0, 0]

  /** `ObjectID.IsZero`: every byte is zero, which is the same as being the nil id. */
  predicate IsZero(id: ObjectId)
    ensures IsZero(id) <==> id == NilObjectId
  {
    var zero := forall i :: 0 <= i < 12 ==> id[i] == 0;
    assert zero ==> forall i :: 0 <= i < 12 ==> id[i] == NilObjectId[i];
    zero
  }

  /** An instant on the clock, standing for `time.Time`. */
  type Time = int

  class BaseModel {
    var id: ObjectId
    var createdAt: Time
    var updatedAt: Time

    constructor (id: ObjectId, createdAt: Time, updatedAt: Time)
      ensures this.id == id && this.createdAt == createdAt && this.updatedAt == updatedAt
    {
      this.id := id;
      this.createdAt := createdAt;
      this.updatedAt := updatedAt;
    }

    /**
     * `BeforeCreate`: stamp both timestamps with the same `now`, and give the
     * record the `generated` id only when it has none yet.
     */
    method BeforeCreate(now: Time, generated: ObjectId)
      modifies this
      ensures createdAt == now && updatedAt == now
      ensures old(IsZero(id)) ==> id == generated
      ensures !old(IsZero(id)) ==> id == old(id)
    {
      createdAt := now;
      updatedAt := now;
      if IsZero(id) {
        id := generated;
      }
    }

    /** `BeforeUpdate`: stamp only the update time; the id and the creation time stay. */
    method BeforeUpdate(now: Time)
      modifies this
      ensures updatedAt == now
      ensures id == old(id) && createdAt == old(createdAt)
    {
      updatedAt := now;
    }
  }

  /** Creating then updating a record: the id is assigned once, the creation time is kept and the update time advances. */
  method CreateThenUpdate(m: BaseModel, created: Time, updated: Time, generated: ObjectId)
    requires !IsZero(generated)
    modifies m
    ensures !IsZero(m.id)
    ensures m.id == (if old(IsZero(m.id)) then generated else old(m.id))
    ensures m.createdAt == created && m.updatedAt == updated
  {
    m.BeforeCreate(created, generated);
    m.BeforeUpdate(updated);
  }
}
