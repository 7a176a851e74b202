/** The protocol messages exchanged by the scheduler, the storage master, the storage
    clients and the storage managers, and the failures their handlers can end in. */
module Messages {

  datatype StorageName = EPHEMERAL | AMAZONS3 | REDIS | FAKE_PERSISTANT

  datatype StorageType = MANAGED | UNMANAGED

  datatype OperationType = GET | PUT | REMOVE

  /** How a rule mentions a manager: the name is set by the rule's author, the
      URI is filled in by the master. */
  datatype Manager = Manager(name: string, uri: string)

  /** One action of a rule, over any way M of addressing a manager. `NotSet` is an
      action message whose oneof was left unset. */
  datatype Action<+M> =
    | GetAction(key: string, mgr: M)
    | CopyFromAction(key: string, srcMgr: M, dstMgr: M)
    | RemoveAction(key: string, mgr: M)
    | PutAction(key: string, mgr: M)
    | NotSet

  datatype Rule = Rule(opType: OperationType, key: string, actions: seq<Action<Manager>>)

  datatype IntroduceRequest =
    | ManagerIntroduce(storageType: StorageType, storageName: StorageName,
                       hostname: string, port: string, files: seq<string>)
    | ClientIntroduce(hostname: string, port: string)
    | IntroduceNotSet

  datatype ManagerView = ManagerView(name: string, uri: string, keys: seq<string>)

  datatype ClientView = ClientView(name: string, uri: string)

  datatype GetViewReply = GetViewReply(views: seq<ManagerView>, clients: seq<ClientView>)

  datatype Task = Task(id: string, inputFile: string, outputFile: string)

  datatype Option<+T> = None | Some(value: T)

  /** OutOfRange is the exception of a map lookup by `at`; AssertionFailed is a failed `assert`. */
  datatype Error = OutOfRange | AssertionFailed

  datatype Result<+T> = Success(value: T) | Failure(error: Error)
}
