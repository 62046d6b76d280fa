/** The two bot handlers as pure functions of their inputs: the body of the file
    handler (index.js, lines 75-123) and of the delete-button handler (lines
    126-150). The network steps are reduced to booleans saying whether they
    succeeded: the file-link lookup, download and FTP upload; the success reply;
    the FTP session and removal; the edit of the message. */
module Bridge {
  import opened Wrappers
  import opened JsValues
  import opened Normalizer
  import opened Paths
  import opened DeleteAction

  /** Outcome of the file handler.
      - `UnsupportedReply`: no file field, so the user is told the type is unsupported;
      - `ErrorReply`: an exception was caught (empty photo list, or a failed
        lookup, download or upload) and reported, and no delete button exists; the
        download streams during the upload, so a transfer that fails mid-stream
        may leave a partial file on the server;
      - `UploadedButReplyFailed`: the file is stored at `dest`, but sending the
        success reply threw (for instance Telegram refused the button's callback
        data); the catch reports an error and no delete button exists;
      - `Uploaded`: the file was stored at `dest`; the reply shows `shownName` and
        `publicUrl` and carries a delete button with `deleteData`. */
  datatype FileOutcome =
    | UnsupportedReply
    | ErrorReply
    | UploadedButReplyFailed(fileId: string, dest: Option<string>)
    | Uploaded(fileId: string, dest: Option<string>, shownName: string, publicUrl: string, deleteData: string)

  /** Outcome of a callback query.
      - `NotHandled`: the data does not match `/delete_(.+)/`, the handler does not run;
      - `Removed`: `dest` was removed and the message edited to say `filename` is gone;
      - `RemovedButEditFailed`: `dest` was removed, but editing the message threw
        and the catch reported an error;
      - `RemoveError`: connecting or removing `dest` failed and the error was reported. */
  datatype DeleteOutcome =
    | NotHandled
    | Removed(filename: string, dest: string)
    | RemovedButEditFailed(filename: string, dest: string)
    | RemoveError(filename: string, dest: string)

  /** The file handler. `transferOk` stands for the file-link lookup, the download
      and the FTP upload all succeeding; `replyOk` for the success reply being sent. */
  function HandleFile(env: Env, m: Message, transferOk: bool, replyOk: bool): (r: FileOutcome)
    ensures r.UnsupportedReply? <==> Normalize(m).Unsupported?
    ensures r.ErrorReply? <==> Normalize(m).EmptyPhotoList? || (Normalize(m).Found? && !transferOk)
    ensures r.UploadedButReplyFailed? <==> Normalize(m).Found? && transferOk && !replyOk
    ensures r.Uploaded? <==> Normalize(m).Found? && transferOk && replyOk
    ensures (r.Uploaded? || r.UploadedButReplyFailed?) ==>
              && r.fileId == Normalize(m).fileId
              && r.dest == UploadDest(env, Normalize(m).filename)
    ensures r.Uploaded? ==>
              && r.shownName == Render(Normalize(m).filename)
              && |Prefix| <= |r.deleteData|
              && r.deleteData[..|Prefix|] == Prefix
              && r.deleteData[|Prefix|..] == r.shownName
              && (Truthy(env.publicUrl) ==> r.publicUrl == env.publicUrl.value + "/" + r.shownName)
              && (!Truthy(env.publicUrl) ==> r.publicUrl == r.shownName)
  {
    match Normalize(m)
    case Unsupported => UnsupportedReply
    case EmptyPhotoList => ErrorReply
    case Found(_, fileId, filename) =>
      if !transferOk then ErrorReply
      else if !replyOk then UploadedButReplyFailed(fileId, UploadDest(env, filename))
      else
        Uploaded(fileId, UploadDest(env, filename), Render(filename),
                 PublicUrl(env, filename), Encode(filename))
  }

  /** The delete-button handler. `removeOk` stands for the FTP session and the
      removal succeeding; `editOk` for the message edit being accepted. */
  function HandleDelete(env: Env, data: string, removeOk: bool, editOk: bool): (r: DeleteOutcome)
    ensures r.NotHandled? <==> forall k: nat, g :: !CapturesAt(data, k, g)
    ensures !r.NotHandled? ==>
              && LeftmostCapture(data, r.filename)
              && UploadDest(env, Some(r.filename)) == Some(r.dest)
              && (r.Removed? <==> removeOk && editOk)
              && (r.RemovedButEditFailed? <==> removeOk && !editOk)
              && (r.RemoveError? <==> !removeOk)
  {
    match Decode(data)
    case None => NotHandled
    case Some(filename) =>
      var dest := DeleteDest(env, filename);
      if !removeOk then RemoveError(filename, dest)
      else if editOk then Removed(filename, dest)
      else RemovedButEditFailed(filename, dest)
  }

  /** The delete button of a successful upload removes exactly the uploaded path,
      provided the name it shows is non-empty and free of line terminators and the
      upload path was a defined string. */
  lemma {:induction false} DeleteRemovesUploadedPath(env: Env, m: Message, removeOk: bool, editOk: bool)
    requires HandleFile(env, m, true, true).Uploaded?
    requires var u := HandleFile(env, m, true, true);
             u.shownName != "" && NoLineTerminator(u.shownName) && u.dest.Some?
    ensures var u := HandleFile(env, m, true, true);
            var d := HandleDelete(env, u.deleteData, removeOk, editOk);
            && !d.NotHandled?
            && d.filename == u.shownName
            && d.dest == u.dest.value
  {
    var u := HandleFile(env, m, true, true);
    var n := Normalize(m);
    DecodeEncode(u.shownName);
    assert u.deleteData == Encode(n.filename);
  }

  /** A photo, a video or an audio always yields a defined non-empty name, so its
      delete button removes the uploaded path whenever the name has no line
      terminator, whatever FTP_PATH is. */
  lemma {:induction false} SynthesizedNamesRoundTrip(env: Env, m: Message, removeOk: bool, editOk: bool)
    requires Normalize(m).Found? && Normalize(m).kind != Document
    requires NoLineTerminator(Render(Normalize(m).filename))
    ensures var u := HandleFile(env, m, true, true);
            var d := HandleDelete(env, u.deleteData, removeOk, editOk);
            && u.Uploaded? && u.dest.Some?
            && !d.NotHandled? && d.dest == u.dest.value
  {
    var u := HandleFile(env, m, true, true);
    assert u.dest.Some?;
    DeleteRemovesUploadedPath(env, m, removeOk, editOk);
  }

  /** A document whose `file_name` is the empty string gets a button that the
      trigger never matches, so it cannot be deleted through the bot. */
  lemma EmptyDocumentNameNotDeletable(env: Env, m: Message, removeOk: bool, editOk: bool)
    requires m.document.Some? && m.document.value.fileName == Some("")
    ensures var u := HandleFile(env, m, true, true);
            u.Uploaded? && HandleDelete(env, u.deleteData, removeOk, editOk) == NotHandled
  {
    DocumentTakenVerbatim(m);
    EmptyNameNotMatched();
  }

  /** A document without `file_name` is shown and deleted as "undefined". With
      FTP_PATH set, upload and delete both use "<FTP_PATH>/undefined"; without it
      the upload path is the JavaScript value `undefined` itself while the delete
      button would remove the path "undefined". That half describes the value
      handed to `uploadFrom`, not an upload that can succeed: the FTP library most
      likely rejects an `undefined` path, which ends in `ErrorReply`. */
  lemma UnnamedDocument(env: Env, m: Message, removeOk: bool, editOk: bool)
    requires m.document.Some? && m.document.value.fileName.None?
    ensures var u := HandleFile(env, m, true, true);
            var d := HandleDelete(env, u.deleteData, removeOk, editOk);
            && u.Uploaded? && u.shownName == "undefined"
            && !d.NotHandled? && d.filename == "undefined"
            && (Truthy(env.ftpPath) ==> u.dest == Some(env.ftpPath.value + "/undefined") == Some(d.dest))
            && (!Truthy(env.ftpPath) ==> u.dest.None? && d.dest == "undefined")
  {
    DocumentTakenVerbatim(m);
    UndefinedNameDecodes();
    if Truthy(env.ftpPath) {
      assert env.ftpPath.value + "/" + "undefined" == env.ftpPath.value + "/undefined";
    }
  }
}
