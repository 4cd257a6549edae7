/**
 * MaterialLibrary: a scene-wide list of materials looked up by a
 * MaterialOptions value, used as its integer index. The last library to
 * awaken becomes the shared instance.
 */
module MaterialLibraries {
  import opened Wrappers

  /** A material asset; an element of the list may be null. */
  datatype MaterialAsset = MaterialAsset(id: nat)

  /** The static Instance property, shared by every library. */
  class LibraryInstance {
    var Instance: MaterialLibrary?

    constructor ()
      ensures Instance == null
    {
      Instance := null;
    }
  }

  class MaterialLibrary {
    var Materials: array?<Option<MaterialAsset>>

    constructor (materials: array?<Option<MaterialAsset>>)
      ensures Materials == materials
    {
      Materials := materials;
    }

    /** Awake: this library becomes the shared instance. */
    method Awake(statics: LibraryInstance)
      modifies statics
      ensures statics.Instance == this
    {
      statics.Instance := this;
    }

    /**
     * GetMaterial: the element at the option's index when the list exists
     * and the index is inside it; null otherwise.
     */
    function GetMaterial(option: int): (r: Option<MaterialAsset>)
      reads this, Materials
      ensures Materials != null && 0 <= option < Materials.Length ==> r == Materials[option]
      ensures Materials == null ==> r == None
      ensures Materials != null && (option < 0 || option >= Materials.Length) ==> r == None
      ensures r.Some? ==> exists i :: 0 <= i < Materials.Length && Materials[i] == r
    {
      if Materials != null && option >= 0 && option < Materials.Length then Materials[option] else None
    }
  }
}
