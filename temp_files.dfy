/** The scratch directory the bot writes audio files into, as the set of
    paths that exist in it. */
module TempStorage {

  class TempFiles {
    var paths: set<string>

    constructor (initial: set<string>)
      ensures paths == initial
    {
      paths := initial;
    }

    /** `download_to_drive(p)` or `chunk.export(p)`: the file now exists,
        replaced if it existed before. */
    method Export(p: string)
      modifies this
      ensures paths == old(paths) + {p}
    {
      paths := paths + {p};
    }

    /** `os.remove(p)` on a path known to exist. */
    method Remove(p: string)
      requires p in paths
      modifies this
      ensures paths == old(paths) - {p}
    {
      paths := paths - {p};
    }

    /** `if os.path.exists(p): os.remove(p)` */
    method RemoveIfExists(p: string)
      modifies this
      ensures paths == old(paths) - {p}
    {
      if p in paths {
        paths := paths - {p};
      }
    }
  }
}
