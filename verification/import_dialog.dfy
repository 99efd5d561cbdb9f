/**
 * The "Import PGN" dialog: the pasted text is stripped, checked to hold a
 * game, and only then handed to the caller's callback, after which the
 * dialog closes. Parsing and the callback belong to other components and
 * are parameters here.
 */
module ImportDialog {
  import opened Outcomes
  import opened Text
  import opened Navigation

  /**
   * The dialog's state: the text area's contents, the status label, whether
   * the window is still open, and every text handed to the callback so far.
   */
  datatype Dialog = Dialog(text: string, status: string, open: bool, delivered: seq<string>)

  /** The dialog as it opens over its parent. */
  function OpenDialog(text: string): (d: Dialog)
    ensures d.open && d.status == "" && d.delivered == [] && d.text == text
  {
    Dialog(text, "", true, [])
  }

  /**
   * `validate_and_import`. `read` is the PGN reader on a text and `callback`
   * the caller's import: `None` when it returns normally, `Some(message)`
   * when it raises.
   *  - blank text: "Please paste a PGN game first", nothing delivered;
   *  - no game in the text: "Invalid PGN format", nothing delivered;
   *  - the reader raises: "Error: " and its message, nothing delivered;
   *  - otherwise the stripped text is delivered once; the dialog closes,
   *    unless the callback raises, which shows "Error: " and its message.
   */
  function ValidateAndImport(d: Dialog, read: string -> ReadOutcome, callback: string -> Option<string>): (r: Dialog)
    ensures r.text == d.text
    ensures var t := Strip(d.text);
            && (AllSpace(d.text) ==> r == d.(status := "Please paste a PGN game first"))
            && (!AllSpace(d.text) && read(t).NoGame? ==> r == d.(status := "Invalid PGN format"))
            && (!AllSpace(d.text) && read(t).ReadFailed? ==> r == d.(status := "Error: " + read(t).message))
    ensures r.delivered != d.delivered <==> !AllSpace(d.text) && read(Strip(d.text)).GameRead?
    ensures r.delivered != d.delivered ==>
              var t := Strip(d.text);
              && r.delivered == d.delivered + [t]
              && (r.open <==> d.open && callback(t).Some?)
              && (callback(t).Some? ==> r.status == "Error: " + callback(t).value)
              && (callback(t).None? ==> r.status == d.status)
  {
    var t := Strip(d.text);
    if t == [] then d.(status := "Please paste a PGN game first")
    else
      match read(t)
      case NoGame => d.(status := "Invalid PGN format")
      case ReadFailed(message) => d.(status := "Error: " + message)
      case GameRead(_) =>
        var called := d.(delivered := d.delivered + [t]);
        match callback(t)
        case None => OnClose(called)
        case Some(message) => called.(status := "Error: " + message)
  }

  /** `on_close` (Cancel, the window's close button, or after a successful import). */
  function OnClose(d: Dialog): (r: Dialog)
    ensures !r.open && r.(open := d.open) == d
  {
    d.(open := false)
  }

  /** A text fit to hand on: non-blank, already stripped, and holding a game. */
  predicate Deliverable(read: string -> ReadOutcome, t: string)
  {
    t != [] && Strip(t) == t && read(t).GameRead?
  }

  /**
   * Every text the dialog ever delivers is non-blank, already stripped and
   * holds a game, whatever the pasted text was.
   */
  predicate DeliversOnlyGames(read: string -> ReadOutcome, d: Dialog)
  {
    forall k :: 0 <= k < |d.delivered| ==> Deliverable(read, d.delivered[k])
  }

  lemma ImportDeliversOnlyGames(d: Dialog, read: string -> ReadOutcome, callback: string -> Option<string>, text: string)
    requires DeliversOnlyGames(read, d)
    ensures DeliversOnlyGames(read, ValidateAndImport(d.(text := text), read, callback))
  {
    var r := ValidateAndImport(d.(text := text), read, callback);
    if r.delivered != d.delivered {
      StripIdempotent(text);
      assert Deliverable(read, Strip(text));
      assert r.delivered == d.delivered + [Strip(text)];
    }
  }
}
