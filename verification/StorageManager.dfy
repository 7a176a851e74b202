/** A storage manager and the network of running managers, addressed by URI. */
module Managers {
  import opened Messages
  import opened Naming
  import opened Interpreter
  import opened Master

  class StorageManager {
    const hostname: string
    const port: string
    const storageType: StorageType
    const storageName: StorageName
    var store: map<string, string>
    var name: string

    constructor (hostname: string, port: string, storageType: StorageType, storageName: StorageName,
                 store: map<string, string>)
      ensures this.hostname == hostname && this.port == port
      ensures this.storageType == storageType && this.storageName == storageName
      ensures this.store == store && name == ""
    {
      this.hostname, this.port := hostname, port;
      this.storageType, this.storageName := storageType, storageName;
      this.store, name := store, "";
    }

    /** Takes a snapshot of the keys and introduces itself with it: afterwards the master's
        view of the manager is exactly its store, and its name leads to its URI. */
    method Start(master: StorageMaster, connection: string)
      modifies this`name, master.peerTracker, master.fileView
      ensures name == GenerateName(ManagerIntroduce(storageType, storageName, hostname, port, []))
      ensures TwoColons(name) && ParseStorageName(NameToStorageName(name)) == Some(storageName)
      ensures master.peerTracker.Uris() == old(master.peerTracker.Uris())[name := HostPort(hostname, port)]
      ensures master.fileView.managerViews == old(master.fileView.managerViews)[name := store.Keys]
    {
      var keys := ListInAnyOrder(store.Keys);
      var files := [];
      for i := 0 to |keys|
        invariant files == keys[..i]
      {
        files := files + [keys[i]];
      }
      assert files == keys;
      ghost var request := ManagerIntroduce(storageType, storageName, hostname, port, files);
      name := master.Introduce(ManagerIntroduce(storageType, storageName, hostname, port, files), connection);
      ManagerNameParsesBack(request);
    }

    /** A failed read is only logged: the reply keeps its empty value. */
    method Get(key: string) returns (value: string)
      ensures value == if key in store then store[key] else ""
    {
      value := "";
      if key in store {
        value := store[key];
      }
    }

    method Put(key: string, value: string)
      modifies this`store
      ensures store == old(store)[key := value]
    {
      store := store[key := value];
    }

    method Remove(key: string)
      modifies this`store
      ensures store == old(store) - {key}
    {
      store := store - {key};
    }

    /** Pulls the value from the destination manager; `null` is one that cannot be reached. */
    method CopyFrom(dst: StorageManager?, key: string)
      modifies this`store
      ensures store == old(store)[key := if dst != null && key in old(dst.store) then old(dst.store[key]) else ""]
    {
      var value := "";
      if dst != null {
        value := dst.Get(key);
      }
      store := store[key := value];
    }
  }

  /** The running managers. A call to a URI where none runs changes nothing and reads
      as the empty value. */
  class Network {
    var managers: map<string, StorageManager>

    ghost predicate Valid()
      reads this
    {
      forall u, w :: u in managers && w in managers && managers[u] == managers[w] ==> u == w
    }

    ghost function Stores(): Stores
      reads this, managers.Values`store
    {
      map u | u in managers :: managers[u].store
    }

    constructor (managers: map<string, StorageManager>)
      requires forall u, w :: u in managers && w in managers && managers[u] == managers[w] ==> u == w
      ensures this.managers == managers && Valid()
    {
      this.managers := managers;
    }

    method Get(uri: string, key: string) returns (value: string)
      ensures value == Read(Stores(), uri, key)
    {
      value := "";
      if uri in managers {
        value := managers[uri].Get(key);
      }
    }

    method Put(uri: string, key: string, value: string)
      requires Valid()
      modifies managers.Values`store
      ensures Stores() == Write(old(Stores()), uri, key, value)
    {
      if uri in managers {
        managers[uri].Put(key, value);
      }
    }

    method Remove(uri: string, key: string)
      requires Valid()
      modifies managers.Values`store
      ensures Stores() == Erase(old(Stores()), uri, key)
    {
      if uri in managers {
        managers[uri].Remove(key);
      }
    }

    method CopyFrom(srcUri: string, dstUri: string, key: string)
      requires Valid()
      modifies managers.Values`store
      ensures Stores() == Write(old(Stores()), srcUri, key, Read(old(Stores()), dstUri, key))
    {
      if srcUri in managers {
        managers[srcUri].CopyFrom(if dstUri in managers then managers[dstUri] else null, key);
      }
    }
  }
}
