/** How Telegraf hands an update to the handlers registered in index.js (lines 63,
    68, 75 and 126). Handlers form a middleware chain in registration order: an
    update goes to the first handler whose filter accepts it, and to later ones only
    if that handler calls `next()`. None of the bot's handlers calls `next()`. */
module Dispatch {
  import opened Wrappers
  import opened Normalizer
  import opened Paths
  import opened DeleteAction
  import opened Bridge

  /** The updates the bot subscribes to (line 163): a message, for which we record
      whether it is the `/start` command, or a callback query with its data. */
  datatype Update =
    | MessageUpdate(m: Message, startCommand: bool)
    | CallbackQuery(data: string)

  datatype Handler = Start | DebugListener | FileHandler | DeleteHandler

  /** A handler as registered, with whether it passes the update on via `next()`. */
  datatype Registered = Registered(handler: Handler, callsNext: bool)

  /** Whether a message carries one of the four file fields. */
  predicate HasFile(m: Message) {
    m.document.Some? || m.photo.Some? || m.video.Some? || m.audio.Some?
  }

  /** The filter of each handler: `bot.start`, `bot.on("message")`,
      `bot.on(["document", "photo", "video", "audio"])`, `bot.action(/delete_(.+)/)`. */
  predicate Accepts(h: Handler, u: Update) {
    match h
    case Start => u.MessageUpdate? && u.startCommand
    case DebugListener => u.MessageUpdate?
    case FileHandler => u.MessageUpdate? && HasFile(u.m)
    case DeleteHandler => u.CallbackQuery? && Decode(u.data).Some?
  }

  /** The handlers that run for `u`, in order. */
  function Run(chain: seq<Registered>, u: Update): (ran: seq<Handler>)
    // only accepting handlers run, each at most once per registration
    ensures |ran| <= |chain|
    ensures forall i :: 0 <= i < |ran| ==> Accepts(ran[i], u)
    ensures forall i :: 0 <= i < |ran| ==> exists j :: 0 <= j < |chain| && chain[j].handler == ran[i]
    // the first accepting handler always runs
    ensures (exists j :: 0 <= j < |chain| && Accepts(chain[j].handler, u)) ==> |ran| > 0
    // it runs first, and if it does not call `next()` nothing runs after it
    ensures forall j :: 0 <= j < |chain| && Accepts(chain[j].handler, u)
                        && (forall i :: 0 <= i < j ==> !Accepts(chain[i].handler, u)) ==>
              ran[0] == chain[j].handler && (!chain[j].callsNext ==> |ran| == 1)
  {
    if chain == [] then []
    else if Accepts(chain[0].handler, u) then
      [chain[0].handler] + (if chain[0].callsNext then Run(chain[1..], u) else [])
    else
      assert forall j :: 1 <= j < |chain| ==> chain[1..][j - 1] == chain[j];
      Run(chain[1..], u)
  }

  /** The chain as registered in index.js: no handler calls `next()`. */
  const AsWritten: seq<Registered> := [
    Registered(Start, false),
    Registered(DebugListener, false),
    Registered(FileHandler, false),
    Registered(DeleteHandler, false)]

  /** The chain with the debug listener passing messages on, as evidently intended. */
  const Corrected: seq<Registered> := [
    Registered(Start, false),
    Registered(DebugListener, true),
    Registered(FileHandler, false),
    Registered(DeleteHandler, false)]

  /** As written, the file handler never runs: every message is taken by the
      `/start` handler or by the debug listener, and neither passes it on. */
  lemma FileHandlerUnreachable(u: Update)
    ensures FileHandler !in Run(AsWritten, u)
    ensures u.MessageUpdate? && HasFile(u.m) && !u.startCommand ==> Run(AsWritten, u) == [DebugListener]
  {
    assert AsWritten[1..] == [Registered(DebugListener, false), Registered(FileHandler, false), Registered(DeleteHandler, false)];
  }

  /** With the corrected chain, a file message that is not `/start` is logged and
      then reaches the file handler. */
  lemma CorrectedReachesFileHandler(m: Message)
    requires HasFile(m)
    ensures Run(Corrected, MessageUpdate(m, false)) == [DebugListener, FileHandler]
  {
    var u := MessageUpdate(m, false);
    var tail1 := [Registered(DebugListener, true), Registered(FileHandler, false), Registered(DeleteHandler, false)];
    var tail2 := [Registered(FileHandler, false), Registered(DeleteHandler, false)];
    assert Corrected[1..] == tail1 && tail1[1..] == tail2;
    assert Run(tail2, u) == [FileHandler];
    assert Run(tail1, u) == [DebugListener] + Run(tail2, u);
  }

  /** Callback queries are unaffected: in both chains the delete handler runs
      exactly when the data matches the trigger. */
  lemma CallbacksReachDeleteHandler(data: string)
    ensures Run(AsWritten, CallbackQuery(data)) == Run(Corrected, CallbackQuery(data))
    ensures Run(Corrected, CallbackQuery(data)) == (if Decode(data).Some? then [DeleteHandler] else [])
  {
    var u := CallbackQuery(data);
    var t1 := [Registered(DebugListener, true), Registered(FileHandler, false), Registered(DeleteHandler, false)];
    var t2 := [Registered(FileHandler, false), Registered(DeleteHandler, false)];
    var t3 := [Registered(DeleteHandler, false)];
    assert Corrected[1..] == t1 && t1[1..] == t2 && t2[1..] == t3 && t3[1..] == [];
    assert Run(t3, u) == (if Decode(data).Some? then [DeleteHandler] else []);
    assert Run(t2, u) == Run(t3, u);
    assert Run(t1, u) == Run(t2, u);
  }

  /** What the bot does with one update, with the corrected chain. */
  datatype BotOutcome =
    | Ignored
    | Greeted
    | FileHandled(file: FileOutcome)
    | DeleteHandled(delete: DeleteOutcome)

  /** One update through the corrected chain and into the handler bodies; the
      booleans are the network outcomes of `HandleFile` and `HandleDelete`. */
  function OnUpdate(env: Env, u: Update, transferOk: bool, replyOk: bool, removeOk: bool, editOk: bool): (r: BotOutcome)
    ensures r.FileHandled? <==> FileHandler in Run(Corrected, u)
    ensures r.DeleteHandled? <==> DeleteHandler in Run(Corrected, u)
    ensures r.FileHandled? ==> r.file == HandleFile(env, u.m, transferOk, replyOk) && !r.file.UnsupportedReply?
    ensures r.DeleteHandled? ==> r.delete == HandleDelete(env, u.data, removeOk, editOk) && !r.delete.NotHandled?
  {
    var ran := Run(Corrected, u);
    if Start in ran then Greeted
    else if FileHandler in ran then
      assert Accepts(FileHandler, u);
      FileHandled(HandleFile(env, u.m, transferOk, replyOk))
    else if DeleteHandler in ran then
      assert Accepts(DeleteHandler, u);
      DeleteHandled(HandleDelete(env, u.data, removeOk, editOk))
    else Ignored
  }
}
