/** The parsed manifest annotations and the deploy request built from them. */
module Requests {
  import opened Results

  datatype Kind = Jar | War | Static | RunOnce | HookOnly

  datatype Manager = SystemdUser | Systemd | NoManager

  datatype Spec = Spec(
    kind: Kind,
    sourceFile: string,
    sourceDir: string,
    targetPath: string,
    setsPermissions: bool,
    targetClear: Option<bool>,
    targetClearParent: Option<bool>,
    serviceName: string,
    manager: Manager,
    runonceCommand: string,
    hookPre: string,
    hookPost: string,
    healthCmd: string,
    healthTimeout: int,
    healthInterval: int
  )

  datatype Request = Request(artifactDir: string, spec: Spec, allowedRoots: seq<string>)

  /** Both clear switches default to on. */
  function OrDefault(choice: Option<bool>): bool {
    match choice
    case None => true
    case Some(b) => b
  }
}
