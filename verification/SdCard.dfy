/**
 The SD card of components/storage/sd_manager.c: a file map, append, read, clear, and the alert
 flush that publishes every pending line and rewrites the failed ones through a temporary file.
 Driver results the code does not control are inputs: whether fopen and malloc succeed, and which
 calls of the publish callback return ESP_OK.
 */
module SdCard {
  import opened Lines

  datatype File = Telemetry | Alerts | AlertsTmp
  datatype Status = Ok | InvalidState | InvalidArgument | NoMemory | Failed

  type Files = map<File, string>

  /** The environment of one flush. Callback call `k` succeeds when `Publishes(k)`. */
  datatype FlushEnv = FlushEnv(memory: bool, tmpOpens: bool, outcomes: seq<bool>) {
    predicate Publishes(k: nat) {
      k < |outcomes| && outcomes[k]
    }
  }

  function Contents(files: Files, f: File): string {
    if f in files then files[f] else ""
  }

  /** What fread returns: the whole file, or as much as fits. */
  function FirstBytes(text: string, limit: nat): string {
    if |text| <= limit then text else text[..limit]
  }

  function Pending(files: Files): seq<string> {
    Split(CString(Contents(files, Alerts)))
  }

  /** append_line. */
  function Append(files: Files, f: File, line: string): Files {
    files[f := Contents(files, f) + line + [NEWLINE]]
  }

  /** The lines among the first of a flush whose callback succeeded, and those whose callback failed. */
  function Sent(lines: seq<string>, env: FlushEnv): seq<string> {
    if lines == [] then []
    else
      var n := |lines| - 1;
      Sent(lines[..n], env) + (if env.Publishes(n) then [lines[n]] else [])
  }

  function Kept(lines: seq<string>, env: FlushEnv): seq<string> {
    if lines == [] then []
    else
      var n := |lines| - 1;
      Kept(lines[..n], env) + (if env.Publishes(n) then [] else [lines[n]])
  }

  /** A flush that gets as far as publishing. */
  predicate Flushes(files: Files, env: FlushEnv) {
    Contents(files, Alerts) != "" && env.memory
  }

  function Rename(files: Files, from: File, to: File): Files {
    if from in files then (files - {from})[to := files[from]] else files
  }

  /** Temporary file written, original removed, temporary removed or renamed. */
  function AfterFlush(files: Files, env: FlushEnv): Files {
    if !Flushes(files, env) then files
    else
      var kept := Kept(Pending(files), env);
      var written := if env.tmpOpens then files[AlertsTmp := Join(kept)] else files;
      var removed := written - {Alerts};
      if kept == [] then removed - {AlertsTmp} else Rename(removed, AlertsTmp, Alerts)
  }

  function FlushSent(files: Files, env: FlushEnv): seq<string> {
    if Flushes(files, env) then Sent(Pending(files), env) else []
  }

  class Card {
    var mounted: bool
    var files: Files

    constructor (mounted: bool, files: Files)
      ensures this.mounted == mounted && this.files == files
    {
      this.mounted, this.files := mounted, files;
    }

    /** `opens`: whether fopen succeeds. */
    method AppendLine(f: File, line: string, opens: bool) returns (r: Status)
      modifies this`files
      ensures r == if !mounted then InvalidState else if !opens then Failed else Ok
      ensures files == if r.Ok? then Append(old(files), f, line) else old(files)
    {
      if !mounted {
        return InvalidState;
      }
      if !opens {
        return Failed;
      }
      files := files[f := (if f in files then files[f] else "") + line + [NEWLINE]];
      r := Ok;
    }

    /** sd_telemetry_read_all with a buffer of `bufferLength` bytes, the terminator included. */
    method ReadAll(bufferLength: nat) returns (r: Status, text: string)
      requires bufferLength > 0
      ensures r == if mounted then Ok else InvalidState
      ensures text == if mounted then FirstBytes(Contents(files, Telemetry), bufferLength - 1) else ""
    {
      if !mounted {
        return InvalidState, "";
      }
      if Telemetry !in files {
        return Ok, "";
      }
      var n := if |files[Telemetry]| < bufferLength - 1 then |files[Telemetry]| else bufferLength - 1;
      return Ok, files[Telemetry][..n];
    }

    /** sd_telemetry_clear and sd_alert_clear: truncation by opening for writing. */
    method Clear(f: File, opens: bool) returns (r: Status)
      modifies this`files
      ensures r == if !mounted then InvalidState else if !opens then Failed else Ok
      ensures files == if r.Ok? then old(files)[f := ""] else old(files)
    {
      if !mounted {
        return InvalidState;
      }
      if !opens {
        return Failed;
      }
      files := files[f := ""];
      r := Ok;
    }

    /** sd_alert_flush. `sent` lists the lines whose callback returned ESP_OK, in call order. */
    method AlertFlush(callback: bool, env: FlushEnv) returns (r: Status, sent: seq<string>)
      modifies this`files
      ensures r == if !mounted then InvalidState
                   else if !callback then InvalidArgument
                   else if Contents(old(files), Alerts) != "" && !env.memory then NoMemory
                   else Ok
      ensures mounted && callback ==>
                files == AfterFlush(old(files), env) && sent == FlushSent(old(files), env)
      ensures !(mounted && callback) ==> files == old(files) && sent == []
    {
      sent := [];
      if !mounted {
        return InvalidState, [];
      }
      if !callback {
        return InvalidArgument, [];
      }
      if Alerts !in files {
        return Ok, [];
      }
      var size := |files[Alerts]|;
      if size <= 0 {
        return Ok, [];
      }
      if !env.memory {
        return NoMemory, [];
      }
      sent := FlushText(files[Alerts], env);
      r := Ok;
    }

    /** The flush proper: read the file into memory, publish its lines, replace the file. */
    method FlushText(text: string, env: FlushEnv) returns (sent: seq<string>)
      requires Alerts in files && text == files[Alerts] && Flushes(files, env)
      modifies this`files
      ensures files == AfterFlush(old(files), env)
      ensures sent == Sent(Pending(old(files)), env)
    {
      hide Split, CString, Sent, Kept, Join, AtWork;
      var all := LoadBuffer(text);
      if env.tmpOpens {
        files := files[AlertsTmp := ""];
      }
      var tmp, anyFailed;
      sent, tmp, anyFailed := PublishLines(all, env, Split(CString(text)));
      ReplaceAlerts(tmp, anyFailed, env);
    }

    /** The end of the flush: close the temporary file, then put it in the place of the original. */
    method ReplaceAlerts(tmp: string, anyFailed: bool, env: FlushEnv)
      modifies this`files
      ensures var written := if env.tmpOpens then old(files)[AlertsTmp := tmp] else old(files);
              files == if anyFailed then Rename(written - {Alerts}, AlertsTmp, Alerts)
                       else written - {Alerts} - {AlertsTmp}
    {
      if env.tmpOpens {
        files := files[AlertsTmp := tmp];
      }
      files := files - {Alerts};
      if !anyFailed {
        files := files - {AlertsTmp};
      } else if AlertsTmp in files {
        files := (files - {AlertsTmp})[Alerts := files[AlertsTmp]];
      }
    }
  }

  /** What the loop has collected after the callback calls on `done`. */
  ghost predicate Progress(done: seq<string>, env: FlushEnv, sent: seq<string>, tmp: string, anyFailed: bool) {
    sent == Sent(done, env) && tmp == Join(Kept(done, env)) && (anyFailed <==> Kept(done, env) != [])
  }

  lemma NothingDone(env: FlushEnv)
    ensures Progress([], env, [], "", false)
  {
  }

  /** The loop body for one line: unless it is empty publish it, and on failure keep it in the
      temporary file. */
  method PublishLine(text: string, env: FlushEnv, calls: nat, sent: seq<string>, tmp: string, anyFailed: bool,
                     ghost done: seq<string>)
      returns (calls': nat, sent': seq<string>, tmp': string, anyFailed': bool)
    requires Progress(done, env, sent, tmp, anyFailed) && calls == |done|
    ensures Progress(done + NonEmpty(text), env, sent', tmp', anyFailed') && calls' == |done + NonEmpty(text)|
  {
    hide Progress;
    calls', sent', tmp', anyFailed' := calls, sent, tmp, anyFailed;
    if |text| > 0 {
      if env.Publishes(calls) {
        SentGrows(done, text, env, sent, tmp, anyFailed);
        sent' := sent + [text];
      } else {
        KeptGrows(done, text, env, sent, tmp, anyFailed);
        tmp' := tmp + text + [NEWLINE];
        anyFailed' := true;
      }
      calls' := calls + 1;
    } else {
      assert done + NonEmpty(text) == done;
    }
  }

  /** The splitting loop of sd_alert_flush over the NUL-terminated buffer. */
  method PublishLines(all: array<char>, env: FlushEnv, ghost lines: seq<string>)
      returns (sent: seq<string>, tmp: string, anyFailed: bool)
    requires AtWork(all, 0, lines, [])
    modifies all
    ensures Progress(lines, env, sent, tmp, anyFailed)
  {
    hide *;
    var line, calls := 0, 0;
    sent, tmp, anyFailed := [], "", false;
    NothingDone(env);
    ghost var done: seq<string> := [];
    var at := NextNewline(all, line, lines, done);
    while at >= 0
      invariant AtWork(all, line, lines, done) && AtLine(all, line, at)
      invariant Progress(done, env, sent, tmp, anyFailed) && calls == |done|
      invariant line < all.Length && at < all.Length && (at >= 0 ==> line <= at)
      decreases all.Length - line
    {
      var text := TakeLine(all, line, at, lines, done);
      calls, sent, tmp, anyFailed := PublishLine(text, env, calls, sent, tmp, anyFailed, done);
      done := done + NonEmpty(text);
      line := at + 1;
      at := NextNewline(all, line, lines, done);
    }
    var last := TakeLastLine(all, line, at, lines, done);
    calls, sent, tmp, anyFailed := PublishLine(last, env, calls, sent, tmp, anyFailed, done);
  }

  lemma SentGrows(done: seq<string>, line: string, env: FlushEnv, sent: seq<string>, tmp: string, anyFailed: bool)
    requires env.Publishes(|done|) && Progress(done, env, sent, tmp, anyFailed)
    ensures Progress(done + [line], env, sent + [line], tmp, anyFailed)
  {
    assert (done + [line])[..|done|] == done;
    assert Kept(done + [line], env) == Kept(done, env);
  }

  lemma KeptGrows(done: seq<string>, line: string, env: FlushEnv, sent: seq<string>, tmp: string, anyFailed: bool)
    requires !env.Publishes(|done|) && Progress(done, env, sent, tmp, anyFailed)
    ensures Progress(done + [line], env, sent, tmp + line + [NEWLINE], true)
  {
    assert (done + [line])[..|done|] == done;
    var kept := Kept(done, env) + [line];
    assert kept[..|kept| - 1] == Kept(done, env);
    assert Sent(done + [line], env) == Sent(done, env);
  }

  /** A flush never touches the telemetry file. */
  lemma FlushSparesTelemetry(files: Files, env: FlushEnv)
    ensures Telemetry in AfterFlush(files, env) <==> Telemetry in files
    ensures Contents(AfterFlush(files, env), Telemetry) == Contents(files, Telemetry)
  {
    hide Kept, Join, Pending;
  }

  /** Which lines a flush publishes and which it keeps, one by one: call `k` of the callback decides on line `k`. */
  lemma FlushTakesEach(lines: seq<string>, l: string, env: FlushEnv)
    ensures var ok := |lines| < |env.outcomes| && env.outcomes[|lines|];
            && Sent(lines + [l], env) == Sent(lines, env) + (if ok then [l] else [])
            && Kept(lines + [l], env) == Kept(lines, env) + (if ok then [] else [l])
  {
    assert (lines + [l])[..|lines|] == lines;
  }
}
