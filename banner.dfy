/**
 * The banner drawn by `MessageBar`: its text, the icon, colours and line limit
 * chosen by the error test, the Copy button, and what a tap on Copy does.
 * Icons and colours are opaque theme tokens; only which one is chosen matters.
 */
module Banner {
  import opened Wrappers

  /** An icon or a colour of the theme. */
  datatype Token = Token(name: string)

  /** The styling parameters passed down from `ContentWithMessageBar`. */
  datatype Style = Style(
    successIcon: Token, errorIcon: Token,
    errorMaxLines: int, successMaxLines: int,
    successContainerColor: Token, successContentColor: Token,
    errorContainerColor: Token, errorContentColor: Token,
    showToastOnCopy: bool)

  /** Everything about the banner's appearance that depends on which kind of message it shows. */
  datatype Look = Look(container: Token, icon: Token, tint: Token, textColor: Token, maxLines: int)

  /** The banner as rendered: its look, its text, and whether the Copy button is present. */
  datatype View = View(look: Look, text: string, copyButton: bool)

  /** The effect of a tap on Copy: the text put on the clipboard and whether the "Copied!" toast is shown. */
  datatype CopyEffect = CopyEffect(clipboard: string, toast: bool)

  function ErrorLook(style: Style): Look {
    Look(style.errorContainerColor, style.errorIcon, style.errorContentColor, style.errorContentColor, style.errorMaxLines)
  }

  function SuccessLook(style: Style): Look {
    Look(style.successContainerColor, style.successIcon, style.successContentColor, style.successContentColor, style.successMaxLines)
  }

  /**
   * `MessageBar(message, error, ...)`: every styling choice is its own
   * conditional on `error != null`; the text falls back from the success
   * message to the error string to "Unknown"; the Copy button exists only for
   * a non-null error string.
   */
  function MessageBar(style: Style, message: Option<string>, error: Option<string>): (v: View)
    ensures v.look == if error.Some? then ErrorLook(style) else SuccessLook(style)
    ensures v.copyButton <==> error.Some?
    ensures message.Some? ==> v.text == message.value
    ensures message.None? && error.Some? ==> v.text == error.value
    ensures message.None? && error.None? ==> v.text == "Unknown"
  {
    var container := if error.Some? then style.errorContainerColor else style.successContainerColor;
    var icon := if error.Some? then style.errorIcon else style.successIcon;
    var tint := if error.Some? then style.errorContentColor else style.successContentColor;
    var textColor := if error.Some? then style.errorContentColor else style.successContentColor;
    var maxLines := if error.Some? then style.errorMaxLines else style.successMaxLines;
    View(Look(container, icon, tint, textColor, maxLines), message.GetOr(error.GetOr("Unknown")), error.Some?)
  }

  /**
   * The Copy button's `onClick`: None when the banner has no Copy button;
   * otherwise the error string, verbatim, goes to the clipboard, and the toast
   * is shown exactly when `showToastOnCopy` is set.
   */
  function OnCopy(style: Style, error: Option<string>): (c: Option<CopyEffect>)
    ensures c.Some? <==> error.Some?
    ensures c.Some? ==> c.value.clipboard == error.value && c.value.toast == style.showToastOnCopy
  {
    match error
    case None => None
    case Some(text) => Some(CopyEffect(text, style.showToastOnCopy))
  }
}
