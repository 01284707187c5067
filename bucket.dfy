/**
 * The storage bucket as the maintenance tools use it: a set of object keys,
 * and the requests sent to it, in order.
 */
module Bucket {

  datatype Request = Copy(src: string, dst: string) | Delete(key: string)

  class Store {
    var objects: set<string>
    var log: seq<Request>

    constructor(present: set<string>)
      ensures objects == present && log == []
    {
      objects := present;
      log := [];
    }

    /** A server-side copy; it fails when `src` does not exist. */
    method Copy(src: string, dst: string) returns (ok: bool)
      modifies this
      ensures ok <==> src in old(objects)
      ensures objects == if ok then old(objects) + {dst} else old(objects)
      ensures log == old(log) + [Request.Copy(src, dst)]
    {
      log := log + [Request.Copy(src, dst)];
      ok := src in objects;
      if ok {
        objects := objects + {dst};
      }
    }

    /** A delete; deleting a missing key succeeds and changes nothing. */
    method Delete(key: string)
      modifies this
      ensures objects == old(objects) - {key}
      ensures log == old(log) + [Request.Delete(key)]
    {
      log := log + [Request.Delete(key)];
      objects := objects - {key};
    }
  }
}
