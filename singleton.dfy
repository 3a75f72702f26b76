/** The single-instance metaclass: calling a class built with it constructs an
    instance only the first time; later calls return that same object. */
module Singleton {

  /** The identity of a class object: distinct classes are distinct values,
      whatever their names (the dictionary is keyed by the class itself). */
  datatype ClassId = ClassId(id: nat)

  /** An instance constructed by a class call, with the arguments it was built from. */
  class Instance {
    const cls: ClassId
    const args: seq<string>

    constructor (cls: ClassId, args: seq<string>)
      ensures this.cls == cls && this.args == args
    {
      this.cls := cls;
      this.args := args;
    }
  }

  /** The metaclass's _instances dictionary, shared by every class that uses it. */
  class Registry {
    var instances: map<ClassId, Instance>

    /** Every stored instance belongs to the class it is stored under. */
    ghost predicate Valid()
      reads this
    {
      forall c :: c in instances ==> instances[c].cls == c
    }

    constructor ()
      ensures Valid() && instances == map[]
    {
      instances := map[];
    }

    /** SingletonMeta.__call__(cls, *args) */
    method Call(cls: ClassId, args: seq<string>) returns (inst: Instance)
      requires Valid()
      modifies this
      ensures Valid()
      ensures cls in instances && instances[cls] == inst && inst.cls == cls
      ensures cls in old(instances) ==> inst == old(instances)[cls] && instances == old(instances)
      ensures cls !in old(instances) ==>
        fresh(inst) && inst.args == args && instances == old(instances)[cls := inst]
    {
      if cls !in instances {
        var created := new Instance(cls, args);
        instances := instances[cls := created];
      }
      inst := instances[cls];
    }
  }

  /** A client: two calls on one class give one object, built from the first
      call's arguments; a call on another class gives another object. */
  method Client(a: ClassId, b: ClassId)
    requires a != b
  {
    var registry := new Registry();
    var first := registry.Call(a, ["first"]);
    var second := registry.Call(a, ["second"]);
    assert second == first && second.args == ["first"];
    var other := registry.Call(b, []);
    assert other != first;
  }
}
