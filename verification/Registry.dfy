/** The static registries that let the serializer create derived classes by name. */
module Registries {
  import opened ObjectGraph

  class Registry {
    var names: map<TypeId, string>        // msRegisteredObjectsName
    var prototypes: map<string, TypeId>   // msRegisteredObjects

    constructor ()
      ensures names == map[] && prototypes == map[]
    {
      names, prototypes := map[], map[];
    }

    /**
     * Both insertions leave an existing entry alone. A consistent registry therefore stays
     * consistent exactly when the type is known already or the name is not taken by another type.
     */
    method Register(name: string, ty: TypeId)
      modifies this
      ensures names == if ty in old(names) then old(names) else old(names)[ty := name]
      ensures prototypes == if name in old(prototypes) then old(prototypes) else old(prototypes)[name := ty]
      ensures old(Consistent(names, prototypes)) ==>
        (Consistent(names, prototypes) <==>
          ty in old(names) || name !in old(prototypes) || old(prototypes)[name] == ty)
    {
      if name !in prototypes {
        prototypes := prototypes[name := ty];
      }
      if ty !in names {
        names := names[ty := name];
      }
      assert ty in names;
    }
  }
}
