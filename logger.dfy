/**
 * `PsrEasy\Log\FileLogger`: a PSR-3 logger that appends one formatted line
 * per call to `{logDir}/{level}.log.{Ymd}`. Its configuration is six
 * fields set by fluent `with*` methods; a call to `log` is gated on the
 * allowed levels and otherwise builds a record and names the file to append
 * it to. The clock, the request headers, the generated process id and the
 * call stack are taken as an `Environment`; the append itself is returned
 * as a `Write` instead of being performed.
 */
module Logger {
  import opened Wrappers
  import opened Text
  import opened Context
  import opened Interpolation

  /** `[$time]\t[$address]\t[$uniqid]\t[$file $line]\t[$message]\t[$context]\n` */
  const DefaultFormat: string := "[%s]\t[%s]\t[%s]\t[%s %s]\t[%s]\t[%s]\n"

  /** The default source-root marker trimmed from caller paths. */
  const DefaultSrcDir: string := "/src/"

  // ---------------------------------------------------------------------
  // Caller location
  // ---------------------------------------------------------------------

  /**
   * The path of a caller's file relative to the source root: what follows
   * the first occurrence of `srcDir`, or the whole path when `srcDir` does
   * not occur.
   */
  function TrimSourcePath(file: string, srcDir: string): (r: string)
    ensures (forall j: nat :: !OccursAt(file, srcDir, j)) ==> r == file
    ensures forall p: nat :: OccursAt(file, srcDir, p) && (forall j: nat :: j < p ==> !OccursAt(file, srcDir, j)) ==>
      r == file[p + |srcDir|..]
  {
    match FindFirst(file, srcDir)
    case None => file
    case Some(p) => file[p + |srcDir|..]
  }

  /** The source file and line written into a log line; PHP's `null`s for a missing frame print as nothing. */
  datatype Location = Location(file: string, line: Option<int>)

  /**
   * `getFileLine`: frame number `limit` (counting from 1) of the stack as
   * `debug_backtrace` sees it, with its path trimmed and its line untouched.
   * A stack shorter than `limit` yields no file and no line.
   */
  function CallerLocation(backtrace: seq<Frame>, limit: int, srcDir: string): (loc: Location)
    requires limit >= 1
    ensures limit <= |backtrace| ==> loc.line == Some(backtrace[limit - 1].line)
    ensures limit <= |backtrace| ==> loc.file == TrimSourcePath(backtrace[limit - 1].file, srcDir)
    ensures limit > |backtrace| ==> loc == Location("", None)
  {
    if limit <= |backtrace| then
      var frame := backtrace[limit - 1];
      Location(TrimSourcePath(frame.file, srcDir), Some(frame.line))
    else
      Location("", None)
  }

  // ---------------------------------------------------------------------
  // Client address and process tag
  // ---------------------------------------------------------------------

  /**
   * `getIpAddress` over X-Forwarded-For, Client-IP and the remote address,
   * in that order: the value of the first one that is set (even to ""), or
   * "" when none is.
   */
  function FirstSet(headers: seq<Option<string>>): (r: string)
    ensures (forall i :: 0 <= i < |headers| ==> headers[i].None?) ==> r == ""
    ensures forall i :: 0 <= i < |headers| && headers[i].Some? && (forall j :: 0 <= j < i ==> headers[j].None?) ==>
      r == headers[i].value
  {
    if headers == [] then ""
    else if headers[0].Some? then headers[0].value
    else FirstSet(headers[1..])
  }

  /** PHP `empty()` on a string: true for "" and for "0". */
  predicate EmptyString(s: string)
  {
    s == "" || s == "0"
  }

  /** The process tag: the configured one unless PHP considers it empty, else a generated one. */
  function ProcessTag(configured: string, generated: string): (r: string)
    ensures !EmptyString(configured) ==> r == configured
    ensures EmptyString(configured) ==> r == generated
  {
    if EmptyString(configured) then generated else configured
  }

  // ---------------------------------------------------------------------
  // Structured payload and destination
  // ---------------------------------------------------------------------

  /**
   * `getArrayString`: the structured part of a line; `Json(members)` stands
   * for `json_encode` of the members without escaping slashes or Unicode.
   */
  datatype Payload = Blank | Json(members: seq<Member>)

  function ArrayString(members: seq<Member>): (r: Payload)
    ensures r.Blank? <==> members == []
    ensures r.Json? ==> r.members == members
  {
    if members == [] then Blank else Json(members)
  }

  /** The file a line of `level` logged on `day` (`Ymd`) goes to. */
  function LogFile(logDir: string, level: string, day: string): (r: string)
    ensures |r| == |logDir| + |level| + |day| + 6
    ensures r[..|logDir| + 1] == logDir + "/"
    ensures r[|r| - |day|..] == day
  {
    logDir + "/" + level + ".log." + day
  }

  /**
   * In one directory, with dates of one length (`Ymd` is always eight
   * characters), the file determines the level and the date: different
   * levels or different days never share a file.
   */
  lemma LogFileInjective(logDir: string, level1: string, day1: string, level2: string, day2: string)
    requires |day1| == |day2|
    requires LogFile(logDir, level1, day1) == LogFile(logDir, level2, day2)
    ensures level1 == level2 && day1 == day2
  {
    var p1 := LogFile(logDir, level1, day1);
    var p2 := LogFile(logDir, level2, day2);
    var start := |logDir| + 1;
    assert |level1| == |level2|;
    assert p1[start..start + |level1|] == level1;
    assert p2[start..start + |level2|] == level2;
    assert p1[|p1| - |day1|..] == day1;
    assert p2[|p2| - |day2|..] == day2;
  }

  // ---------------------------------------------------------------------
  // The logger
  // ---------------------------------------------------------------------

  /** What one call reads from outside the logger. */
  datatype Environment = Environment(
    time: string,                   // date('Y-m-d H:i:s', $now)
    day: string,                    // date('Ymd', $now)
    forwardedFor: Option<string>,   // $_SERVER['HTTP_X_FORWARDED_FOR']
    clientIp: Option<string>,       // $_SERVER['HTTP_CLIENT_IP']
    remoteAddr: Option<string>,     // $_SERVER['REMOTE_ADDR']
    generatedId: string,            // uniqid(getmypid())
    backtrace: seq<Frame>)          // debug_backtrace() inside getFileLine

  /** The seven values `sprintf` puts into the format, in order. */
  datatype Record = Record(
    time: string,
    address: string,
    uniqid: string,
    file: string,
    line: Option<int>,
    message: string,
    payload: Payload)

  /** Appending `sprintf(format, record...)` to the file at `path`. */
  datatype Write = Write(path: string, format: string, record: Record)

  class FileLogger {
    var logDir: string
    var uniqid: string
    var format: string
    var limit: int
    var srcDir: string
    var levels: seq<string>

    /** The backtrace limit is always a positive frame count. */
    ghost predicate Valid()
      reads this
    {
      limit >= 1
    }

    constructor (logDir: string)
      ensures Valid()
      ensures this.logDir == logDir && uniqid == "" && format == DefaultFormat
      ensures limit == 1 && srcDir == DefaultSrcDir && levels == []
    {
      this.logDir := logDir;
      uniqid := "";
      format := DefaultFormat;
      limit := 1;
      srcDir := DefaultSrcDir;
      levels := [];
    }

    method WithUniqid(uniqid: string) returns (self: FileLogger)
      requires Valid()
      modifies this
      ensures self == this && Valid()
      ensures this.uniqid == uniqid
      ensures logDir == old(logDir) && format == old(format) && limit == old(limit)
      ensures srcDir == old(srcDir) && levels == old(levels)
    {
      this.uniqid := uniqid;
      self := this;
    }

    method WithFormat(format: string) returns (self: FileLogger)
      requires Valid()
      modifies this
      ensures self == this && Valid()
      ensures this.format == format
      ensures logDir == old(logDir) && uniqid == old(uniqid) && limit == old(limit)
      ensures srcDir == old(srcDir) && levels == old(levels)
    {
      this.format := format;
      self := this;
    }

    /** Only a positive limit is taken; anything else is silently ignored. */
    method WithBacktraceLimit(limit: int) returns (self: FileLogger)
      requires Valid()
      modifies this
      ensures self == this && Valid()
      ensures this.limit == if limit > 0 then limit else old(this.limit)
      ensures logDir == old(logDir) && uniqid == old(uniqid) && format == old(format)
      ensures srcDir == old(srcDir) && levels == old(levels)
    {
      if limit > 0 {
        this.limit := limit;
      }
      self := this;
    }

    method WithSrcDir(srcDir: string) returns (self: FileLogger)
      requires Valid()
      modifies this
      ensures self == this && Valid()
      ensures this.srcDir == srcDir
      ensures logDir == old(logDir) && uniqid == old(uniqid) && format == old(format)
      ensures limit == old(limit) && levels == old(levels)
    {
      this.srcDir := srcDir;
      self := this;
    }

    /** An empty list allows every level. */
    method WithLevels(levels: seq<string>) returns (self: FileLogger)
      requires Valid()
      modifies this
      ensures self == this && Valid()
      ensures this.levels == levels
      ensures logDir == old(logDir) && uniqid == old(uniqid) && format == old(format)
      ensures limit == old(limit) && srcDir == old(srcDir)
    {
      this.levels := levels;
      self := this;
    }

    /** The record one call produces under the current configuration. */
    function RecordFor(message: string, context: seq<Entry>, env: Environment): (r: Record)
      reads this
      requires Valid()
      requires DistinctKeys(context)
      ensures '\n' !in r.message
      ensures r.payload.Blank? <==> forall i :: 0 <= i < |context| ==> RouteOf(context[i]) == ToPlaceholder
      ensures !EmptyString(uniqid) ==> r.uniqid == uniqid
      ensures limit <= |env.backtrace| ==> r.line == Some(env.backtrace[limit - 1].line)
    {
      var structured := Structured(Split(context));
      var loc := CallerLocation(env.backtrace, limit, srcDir);
      assert structured == [] <==> forall i :: 0 <= i < |context| ==> RouteOf(context[i]) == ToPlaceholder by {
        StructuredEmpty(context);
      }
      Record(
        env.time,
        FirstSet([env.forwardedFor, env.clientIp, env.remoteAddr]),
        ProcessTag(uniqid, env.generatedId),
        loc.file,
        loc.line,
        Message(message, context),
        ArrayString(structured))
    }

    /** `interpolate`: partition the context, substitute, strip newlines, gather the seven fields. */
    method Interpolate(message: string, context: seq<Entry>, env: Environment) returns (record: Record)
      requires Valid()
      requires DistinctKeys(context)
      ensures record == RecordFor(message, context, env)
    {
      var time := env.time;
      var address := FirstSet([env.forwardedFor, env.clientIp, env.remoteAddr]);
      var id := ProcessTag(uniqid, env.generatedId);
      var replace, structured, exception := SplitContext(context);
      if exception != [] {
        structured := structured + [Member("exception", Traces(exception))];
      }
      var loc := CallerLocation(env.backtrace, limit, srcDir);
      var text := Translate(message, replace);
      text := StripNewlines(text);
      var arrStr := ArrayString(structured);
      record := Record(time, address, id, loc.file, loc.line, text, arrStr);
    }

    /**
     * `log`: nothing happens for a level outside a non-empty allowed list;
     * otherwise the record is appended to the level's file for the day.
     */
    method Log(level: string, message: string, context: seq<Entry>, env: Environment) returns (write: Option<Write>)
      requires Valid()
      requires DistinctKeys(context)
      ensures write.None? <==> |levels| > 0 && level !in levels
      ensures write.Some? ==> write.value == Write(LogFile(logDir, level, env.day), format, RecordFor(message, context, env))
    {
      if |levels| > 0 && level !in levels {
        return None;
      }
      var record := Interpolate(message, context, env);
      write := Some(Write(LogFile(logDir, level, env.day), format, record));
    }
  }

  /**
   * A client in the manner of the repository's tests: the fluent setters
   * compose, an invalid limit is ignored, and a level outside the allowed
   * list writes nothing while an allowed one writes to its own file.
   */
  method Scenario(env: Environment, context: seq<Entry>) returns (skipped: Option<Write>, written: Option<Write>)
    requires DistinctKeys(context)
    ensures skipped.None?
    ensures written.Some? && written.value.path == LogFile("logs", "error", env.day) && written.value.format == DefaultFormat
    ensures |env.backtrace| >= 1 ==> written.value.record.line == Some(env.backtrace[0].line)
  {
    var logger := new FileLogger("logs");
    var same := logger.WithBacktraceLimit(0);
    assert same == logger && logger.limit == 1;
    same := logger.WithLevels(["error"]);
    assert "debug" != "error";
    skipped := logger.Log("debug", "Message that should not be logged", context, env);
    written := logger.Log("error", "Runtime error", context, env);
  }
}
