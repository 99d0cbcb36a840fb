/**
 * The "copy code" button `initCodeCopy` adds to every `pre code` block
 * (assets/js/main.js). Its label shows the outcome of the clipboard write and
 * a timer set at that moment puts it back two seconds later.
 */
module CodeCopy {

  const CopyLabel := "Copy"
  const CopiedLabel := "Copied!"
  const FailedLabel := "Failed"
  const ButtonClass := "copy-code-btn"
  const AriaLabel := "Copy code to clipboard"
  /** Delay, in milliseconds, before the label reverts. */
  const RevertDelay := 2000

  /** The label once the clipboard write has settled. */
  function OutcomeLabel(success: bool): (shown: string)
    ensures shown != CopyLabel
    ensures shown == CopiedLabel <==> success
    ensures shown == FailedLabel <==> !success
  {
    if success then CopiedLabel else FailedLabel
  }

  class CopyButton {
    var text: string
    /** Revert timers scheduled and not yet fired. */
    var pendingReverts: nat
    const className: string
    const ariaLabel: string

    /** Every label is one of the three, and with no timer pending it reads "Copy". */
    ghost predicate Valid()
      reads this
    {
      && (text == CopyLabel || text == CopiedLabel || text == FailedLabel)
      && (pendingReverts == 0 ==> text == CopyLabel)
    }

    /** The button as created for a code block. */
    constructor ()
      ensures Valid() && text == CopyLabel && pendingReverts == 0
      ensures className == ButtonClass && ariaLabel == AriaLabel
    {
      text := CopyLabel;
      pendingReverts := 0;
      className := ButtonClass;
      ariaLabel := AriaLabel;
    }

    /** The awaited `navigator.clipboard.writeText` settled; one revert timer is set. */
    method WriteSettled(success: bool)
      requires Valid()
      modifies this
      ensures Valid()
      ensures text == OutcomeLabel(success) && pendingReverts == old(pendingReverts) + 1
    {
      text := if success then CopiedLabel else FailedLabel;
      pendingReverts := pendingReverts + 1;
    }

    /** A revert timer fires. */
    method RevertFired()
      requires Valid() && pendingReverts > 0
      modifies this
      ensures Valid()
      ensures text == CopyLabel && pendingReverts == old(pendingReverts) - 1
    {
      text := CopyLabel;
      pendingReverts := pendingReverts - 1;
    }
  }
}
