// The records every part of the model talks about.
module Packages {

  /** The values of a 32-bit enumeration besides the five that have a name here. */
  type OtherCode = code: int | 0 <= code < 0x1_0000_0000 - 5

  /** The actions the modelled code distinguishes; every other value of ActionType is an OTHER. */
  datatype Action = UNKNOWN | INSTALL | ENSURE | REMOVE | UPDATE | OTHER(code: OtherCode)

  datatype Package = Package(action: Action, system: string, name: string, version: string,
                             sourcePath: string, localTarget: bool, flags: seq<string>, directRequest: bool)

  /** A package without what identifies the request rather than the package. */
  function Stripped(p: Package): Package {
    p.(flags := [], directRequest := false)
  }

  /** samePackage and planner_same_package: everything but flags and directRequest. */
  predicate SamePackage(left: Package, right: Package)
    ensures SamePackage(left, right) <==> Stripped(left) == Stripped(right)
  {
    && left.action == right.action && left.system == right.system && left.name == right.name
    && left.version == right.version && left.sourcePath == right.sourcePath
    && left.localTarget == right.localTarget
  }
}
