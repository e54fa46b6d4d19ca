/** Input-context gating of one-shot actions, and the inventory toggle that
    switches the context. Device polling and bindings are not modelled. */
module Input {

  datatype InputContext = Gameplay | UI | Dialogue | Inventory | Locked

  /** `TryFire`'s decision: whether a one-shot action with `subscribed`
      handlers is invoked in `context`. */
  function Fires(context: InputContext, subscribed: bool, ignoreContext: bool, allowInventoryContext: bool): (r: bool)
    ensures !subscribed ==> !r
    ensures subscribed && ignoreContext ==> r
    ensures subscribed && !ignoreContext ==> (r <==> context == Gameplay || (context == Inventory && allowInventoryContext))
  {
    if !subscribed then false
    else if ignoreContext then true
    else
      match context
      case Gameplay => true
      case Inventory => allowInventoryContext
      case UI => false
      case Dialogue => false
      case Locked => false
  }

  /** The two bound actions and the flags each passes to `TryFire`. */
  datatype BoundAction = Interact | InventoryToggle

  function IgnoresContext(a: BoundAction): bool
  {
    a == InventoryToggle
  }

  function AllowedInInventory(a: BoundAction): bool
  {
    a == Interact
  }

  /** Interact fires in Gameplay and Inventory only; the inventory toggle
      fires in every context. */
  lemma BoundActionGating(a: BoundAction, context: InputContext, subscribed: bool)
    ensures var r := Fires(context, subscribed, IgnoresContext(a), AllowedInInventory(a));
            && (a == Interact ==> (r <==> subscribed && (context == Gameplay || context == Inventory)))
            && (a == InventoryToggle ==> (r <==> subscribed))
  {
  }

  class InputManager {
    var currentContext: InputContext

    constructor ()
      ensures currentContext == Gameplay
    {
      currentContext := Gameplay;
    }

    method SetContext(context: InputContext)
      modifies this`currentContext
      ensures currentContext == context
    {
      currentContext := context;
    }

    /** Whether pressing `a` invokes its event in the current context. */
    function Press(a: BoundAction, subscribed: bool): (r: bool)
      reads this
      ensures a == Interact ==> (r <==> subscribed && (currentContext == Gameplay || currentContext == Inventory))
      ensures a == InventoryToggle ==> (r <==> subscribed)
    {
      Fires(currentContext, subscribed, IgnoresContext(a), AllowedInInventory(a))
    }
  }

  /** A scene object whose only modelled state is whether it is active. */
  class Panel {
    var activeSelf: bool

    constructor (activeSelf: bool)
      ensures this.activeSelf == activeSelf
    {
      this.activeSelf := activeSelf;
    }
  }

  class UIManager {
    const inventoryPanel: Panel?
    const inputManager: InputManager?
    var inventoryOpen: bool

    /** Construction followed by `Awake` and `OnEnable`: the flag starts as the
        panel's active state (false without a panel). */
    constructor (inventoryPanel: Panel?, inputManager: InputManager?)
      ensures this.inventoryPanel == inventoryPanel && this.inputManager == inputManager
      ensures inventoryOpen == (inventoryPanel != null && inventoryPanel.activeSelf)
    {
      this.inventoryPanel := inventoryPanel;
      this.inputManager := inputManager;
      inventoryOpen := inventoryPanel != null && inventoryPanel.activeSelf;
    }

    /** Flips the flag, shows or hides the panel to match, and switches the
        input context to Inventory while open and Gameplay while closed. */
    method HandleInventoryToggle()
      modifies this`inventoryOpen, inventoryPanel, inputManager
      ensures inventoryOpen == !old(inventoryOpen)
      ensures inventoryPanel != null ==> inventoryPanel.activeSelf == inventoryOpen
      ensures inputManager != null ==> inputManager.currentContext == if inventoryOpen then Inventory else Gameplay
    {
      inventoryOpen := !inventoryOpen;
      if inventoryPanel != null {
        inventoryPanel.activeSelf := inventoryOpen;
      }
      if inputManager != null {
        inputManager.SetContext(if inventoryOpen then Inventory else Gameplay);
      }
    }
  }
}
