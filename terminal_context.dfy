/**
 * src/rcterminal/RCTerminalContext.ts: the older owner of the terminal view.
 * It buffers and flushes text exactly as `Terminal.RCTerminal` does, but
 * sends every typed line to chat, with no local commands. The calls it makes
 * into the extension and the session are appended to `effects`.
 */
module TerminalContext {
  import opened Wrappers
  import opened JsString
  import opened Effects
  import opened TerminalView

  class RCTerminalContext {
    /** `terminalView`: null when no view exists. */
    var view: RCTerminalView?
    /** Text waiting for the view to open, oldest first. */
    var buffered: seq<string>
    /** Calls made into the extension and the session, oldest first. */
    var effects: seq<Action>

    constructor()
      ensures view == null && buffered == [] && effects == []
    {
      view := null;
      buffered := [];
      effects := [];
    }

    /** `close`: close the view, if any, and drop it; later writes buffer again. */
    method Close()
      modifies this, view
      ensures view == null
      ensures old(view) != null ==> old(view).closeFired && old(view).written == old(view.written)
      ensures buffered == old(buffered) && effects == old(effects)
    {
      if view != null {
        view.CloseTerminal();
      }
      view := null;
    }

    /** `clear`: clear the view, if any. */
    method Clear()
      modifies view
      ensures view != null ==> view.written == old(view.written) + [ClearScreen, view.userInput]
      ensures view != null ==>
        view.userInput == old(view.userInput) && view.isOpen == old(view.isOpen)
        && view.closeFired == old(view.closeFired)
    {
      if view != null {
        view.ClearTerminal();
      }
    }

    /** `start`: create a view unless one exists. */
    method Start()
      modifies this
      ensures old(view) != null ==> view == old(view)
      ensures old(view) == null ==>
        view != null && fresh(view) && view.Valid()
        && view.userInput == DefaultLine && !view.isOpen && view.written == []
      ensures buffered == old(buffered) && effects == old(effects)
    {
      if view != null {
        return;
      }
      view := new RCTerminalView();
    }

    /**
     * `write`: with an opened view, flush the buffer and then write the text;
     * otherwise add the text to the buffer.
     */
    method Write(text: string)
      modifies this`buffered, (if view == null then {} else {view})`written
      decreases |buffered|, 1
      ensures old(view != null && view.isOpen) ==>
        buffered == []
        && view.written == old(view.written) + WriteFrames(old(buffered), view.userInput)
           + [EraseLine, text + "\r\n", view.userInput]
      ensures !old(view != null && view.isOpen) ==>
        buffered == old(buffered) + [text] && (view != null ==> view.written == old(view.written))
    {
      if view != null && view.isOpen {
        WriteBufferArray();
        view.WriteToTerminal(text);
        return;
      }
      buffered := buffered + [text];
    }

    /**
     * `writeBufferArray`: take the buffer, empty it, and write each message
     * again. With an opened view every message reaches the view in order;
     * otherwise every message goes back into the buffer in the same order.
     */
    method WriteBufferArray()
      modifies this`buffered, (if view == null then {} else {view})`written
      decreases |buffered|, 0
      ensures old(view != null && view.isOpen) ==>
        buffered == [] && view.written == old(view.written) + WriteFrames(old(buffered), view.userInput)
      ensures !old(view != null && view.isOpen) ==>
        buffered == old(buffered) && (view != null ==> view.written == old(view.written))
    {
      var buffer := buffered;
      buffered := [];
      ghost var wasOpened := view != null && view.isOpen;
      ghost var w0 := if view != null then view.written else [];
      ghost var line := if view != null then view.userInput else "";
      for i := 0 to |buffer|
        invariant buffered == if wasOpened then [] else buffer[..i]
        invariant view != null ==> view.written == w0 + if wasOpened then WriteFrames(buffer[..i], line) else []
      {
        ghost var before := if view != null then view.written else [];
        Write(buffer[i]);
        assert buffer[..i + 1] == buffer[..i] + [buffer[i]];
        if wasOpened {
          FlushStep(w0, buffer[..i], buffer[i], line, before, view.written);
        } else {
          assert buffered == buffer[..i] + [buffer[i]];
        }
      }
      assert buffer[..|buffer|] == buffer;
    }

    /** `onTerminalInput`: send the line, unchanged, as chat when a session exists. */
    method OnTerminalInput(text: string, hasSession: bool)
      modifies this
      ensures view == old(view) && buffered == old(buffered)
      ensures effects == old(effects) + (if hasSession then [SendRCChat(text)] else [])
    {
      if hasSession {
        effects := effects + [SendRCChat(text)];
      }
    }

    /** `onTerminalClosed`: disconnect the session and drop the view. */
    method OnTerminalClosed()
      modifies this
      ensures view == null && buffered == old(buffered)
      ensures effects == old(effects) + [DisconnectRemoteControl]
    {
      effects := effects + [DisconnectRemoteControl];
      view := null;
    }

    /** `onTerminalOpened`: flush the buffer. */
    method OnTerminalOpened()
      modifies this`buffered, (if view == null then {} else {view})`written
      ensures old(view != null && view.isOpen) ==>
        buffered == [] && view.written == old(view.written) + WriteFrames(old(buffered), view.userInput)
      ensures !old(view != null && view.isOpen) ==>
        buffered == old(buffered) && (view != null ==> view.written == old(view.written))
    {
      WriteBufferArray();
    }

    /**
     * The pseudo-terminal's `open`: draw the typed line, call
     * `onTerminalOpened`, and only then mark the view opened. The flush inside
     * the callback therefore still sees a view that is not opened, and every
     * buffered message stays buffered, in order, until the next write.
     */
    method OpenView()
      requires view != null
      modifies this, view
      ensures view == old(view) && view.isOpen && effects == old(effects)
      ensures view.userInput == old(view.userInput) && view.closeFired == old(view.closeFired)
      ensures !old(view.isOpen) ==>
        buffered == old(buffered) && view.written == old(view.written) + [view.userInput]
      ensures old(view.isOpen) ==>
        buffered == []
        && view.written == old(view.written) + [view.userInput] + WriteFrames(old(buffered), view.userInput)
    {
      view.BeginOpen();
      OnTerminalOpened();
      view.FinishOpen();
    }

    /**
     * The pseudo-terminal's `handleInput` for one key, followed by
     * `onTerminalInput` when the key completes a line.
     */
    method KeyPress(key: string, hasSession: bool)
      requires view != null && view.Valid()
      modifies this, view
      ensures view == old(view) && view.Valid() && buffered == old(buffered)
      ensures key == Enter ==>
        effects == old(effects)
          + (if hasSession then [SendRCChat(old(view.userInput)[|DefaultLine|..])] else [])
      ensures key != Enter ==> effects == old(effects)
    {
      var command := view.HandleInput(key);
      if command.Some? {
        OnTerminalInput(command.value, hasSession);
      }
    }
  }
}
