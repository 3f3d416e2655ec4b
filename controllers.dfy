/**
 * `find_controller` of the NIF importer: a search along the chain of
 * time controllers that starts at a block's Controller link and follows
 * each controller's Next Controller link until the null link.
 */
module Controllers {

  /** A controller block; `blockType` is what GetBlockType() reports. */
  class Controller {
    const blockType: string
    var nextController: Controller?

    constructor (blockType: string, nextController: Controller?)
      ensures this.blockType == blockType && this.nextController == nextController
    {
      this.blockType := blockType;
      this.nextController := nextController;
    }
  }

  /** A block that can carry controllers. */
  class ObjectNet {
    var controller: Controller?

    constructor (controller: Controller?)
      ensures this.controller == controller
    {
      this.controller := controller;
    }
  }

  /**
   * `chain` lists the controllers reached from `first`, in order, ending
   * with the one whose Next Controller link is null.
   */
  ghost predicate IsChain(first: Controller?, chain: seq<Controller>)
    reads set c | c in chain
  {
    && (first == null <==> chain == [])
    && (chain != [] ==> chain[0] == first && chain[|chain| - 1].nextController == null)
    && (forall i :: 0 <= i < |chain| - 1 ==> chain[i].nextController == chain[i + 1])
  }

  /**
   * The first controller of the chain whose type is `controllerType`, or
   * null when no controller of the chain has that type. A cyclic chain,
   * on which the source would loop forever, has no `IsChain` witness.
   */
  method FindController(block: ObjectNet, controllerType: string, ghost chain: seq<Controller>)
    returns (ctrl: Controller?)
    requires IsChain(block.controller, chain)
    ensures ctrl == null <==> forall i :: 0 <= i < |chain| ==> chain[i].blockType != controllerType
    ensures ctrl != null ==>
      exists i :: 0 <= i < |chain| && chain[i] == ctrl && ctrl.blockType == controllerType
                  && forall j :: 0 <= j < i ==> chain[j].blockType != controllerType
  {
    ctrl := block.controller;
    ghost var i := 0;
    while ctrl != null
      invariant 0 <= i <= |chain|
      invariant ctrl == if i < |chain| then chain[i] else null
      invariant forall j :: 0 <= j < i ==> chain[j].blockType != controllerType
      decreases |chain| - i
    {
      if ctrl.blockType == controllerType {
        break;
      }
      ctrl := ctrl.nextController;
      i := i + 1;
    }
  }
}
