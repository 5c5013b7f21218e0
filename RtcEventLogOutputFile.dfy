/** The file output of the RTC event log: strings are appended to a file until a size limit
    would be exceeded or a write fails, after which the file is closed and the output is
    inactive. The file system is an oracle: whether an open or a write succeeds is a
    parameter, and the file's contents are the strings written to it. */
module RtcEventLogOutputFile {

  /** `RtcEventLog::kUnlimitedFileSize`: a limit of zero means no limit. */
  const UnlimitedFileSize: nat := 0

  /** The output's observable state: its limit, `written_bytes_`, whether a file is held and
      open, and what the file holds. */
  datatype LogFile = LogFile(maxSizeBytes: nat, writtenBytes: nat, active: bool, contents: string)

  /** What the output keeps true: the byte count is the file's length, and a limited file
      never holds more than its limit. */
  predicate Valid(f: LogFile)
  {
    && f.writtenBytes == |f.contents|
    && (f.maxSizeBytes != UnlimitedFileSize ==> f.writtenBytes <= f.maxSizeBytes)
  }

  /** Whether a write of `length` bytes is attempted at all. */
  predicate WithinLimit(maxSizeBytes: nat, writtenBytes: nat, length: nat)
  {
    maxSizeBytes == UnlimitedFileSize || writtenBytes + length <= maxSizeBytes
  }

  /** `Write` on an active output, when the file would accept the bytes exactly if
      `fileWriteOk`: the output afterwards and the result. */
  function WriteStep(f: LogFile, output: string, fileWriteOk: bool): (r: (LogFile, bool))
    requires f.active
    ensures r.1 <==> WithinLimit(f.maxSizeBytes, f.writtenBytes, |output|) && fileWriteOk
    ensures r.1 ==> r.0 == f.(writtenBytes := f.writtenBytes + |output|, contents := f.contents + output)
    ensures !r.1 ==> r.0 == f.(active := false)
    ensures r.0.maxSizeBytes == f.maxSizeBytes
  {
    var written := WithinLimit(f.maxSizeBytes, f.writtenBytes, |output|) && fileWriteOk;
    if written then (f.(writtenBytes := f.writtenBytes + |output|, contents := f.contents + output), true)
    else (f.(active := false), false)
  }

  /** A write keeps the output valid: in particular a limited file never grows past its
      limit. */
  lemma WriteKeepsValid(f: LogFile, output: string, fileWriteOk: bool)
    requires f.active && Valid(f)
    ensures Valid(WriteStep(f, output, fileWriteOk).0)
  {
  }

  /** The outputs one after another. */
  function Concat(outputs: seq<string>): string
  {
    if outputs == [] then "" else outputs[0] + Concat(outputs[1..])
  }

  /** A sequence of writes, each with the file's answer, made while the output stays
      active; the output's user stops once it is inactive. */
  function WriteAll(f: LogFile, outputs: seq<string>, fileWriteOk: seq<bool>): (r: LogFile)
    requires |outputs| == |fileWriteOk|
    ensures r.maxSizeBytes == f.maxSizeBytes && f.contents <= r.contents
    ensures r.active ==> f.active && r.contents == f.contents + Concat(outputs)
    decreases |outputs|
  {
    if outputs == [] || !f.active then f
    else WriteAll(WriteStep(f, outputs[0], fileWriteOk[0]).0, outputs[1..], fileWriteOk[1..])
  }

  /** However many writes are made, the file is a prefix-extension of what it held, it
      keeps the limit, and once inactive the output stays inactive. */
  lemma {:induction false} WriteAllKeepsValid(f: LogFile, outputs: seq<string>, fileWriteOk: seq<bool>)
    requires |outputs| == |fileWriteOk| && Valid(f)
    ensures var r := WriteAll(f, outputs, fileWriteOk);
      && Valid(r)
      && f.contents <= r.contents
      && (!f.active ==> r == f)
    decreases |outputs|
  {
    if outputs != [] && f.active {
      var g := WriteStep(f, outputs[0], fileWriteOk[0]).0;
      WriteKeepsValid(f, outputs[0], fileWriteOk[0]);
      WriteAllKeepsValid(g, outputs[1..], fileWriteOk[1..]);
    }
  }

  /** With a 50-byte limit, a 50-byte write is accepted and a following 50-byte write is
      refused: the file holds exactly the first write and the output is inactive. */
  lemma LimitedOutputFile(first: string, second: string)
    requires |first| == 50 && |second| == 50
    ensures var r := WriteAll(LogFile(50, 0, true, ""), [first, second], [true, true]);
      r.contents == first && !r.active
  {
    var f1 := WriteStep(LogFile(50, 0, true, ""), first, true).0;
    assert f1.contents == first && f1.active;
    assert WriteAll(LogFile(50, 0, true, ""), [first, second], [true, true])
        == WriteAll(f1, [second], [true]);
  }

  /** With no limit, every write the file accepts is appended. */
  lemma UnlimitedOutputFileAppends(f: LogFile, output: string)
    requires f.active && f.maxSizeBytes == UnlimitedFileSize
    ensures WriteStep(f, output, true).1 && WriteStep(f, output, true).0.contents == f.contents + output
  {
  }

  class OutputFile {
    const maxSizeBytes: nat
    var writtenBytes: nat
    /** Whether `file_` is non-null, and whether the file it holds is open. */
    var hasFile: bool
    var isOpen: bool
    var contents: string

    /** `IsActive`, which is `IsActiveInternal`. */
    predicate IsActive()
      reads this
    {
      hasFile && isOpen
    }

    function Snapshot(): LogFile
      reads this
    {
      LogFile(maxSizeBytes, writtenBytes, IsActive(), contents)
    }

    /** The constructor from a file name: `openOk` is whether the file could be opened. */
    constructor(maxSize: nat, openOk: bool)
      ensures Snapshot() == LogFile(maxSize, 0, openOk, "") && Valid(Snapshot())
    {
      maxSizeBytes := maxSize;
      writtenBytes := 0;
      contents := "";
      hasFile := openOk;
      isOpen := openOk;
    }

    /** The constructor from a platform file: `fdopenOk` is whether a `FILE*` could be made
        for it, `closeOk` whether closing it after that failure succeeded, and `openOk`
        whether the wrapper accepted the `FILE*`. The output is active only when both the
        `FILE*` and the wrapper succeeded. */
    constructor FromPlatformFile(maxSize: nat, fdopenOk: bool, closeOk: bool, openOk: bool)
      ensures Snapshot() == LogFile(maxSize, 0, fdopenOk && openOk, "") && Valid(Snapshot())
      ensures !fdopenOk ==> hasFile == closeOk
    {
      maxSizeBytes := maxSize;
      writtenBytes := 0;
      contents := "";
      if !fdopenOk {
        hasFile := closeOk;
        isOpen := false;
      } else if !openOk {
        hasFile := false;
        isOpen := false;
      } else {
        hasFile := true;
        isOpen := true;
      }
    }

    /** `Write`; `fileWriteOk` is whether the file accepts the bytes. */
    method Write(output: string, fileWriteOk: bool) returns (written: bool)
      requires IsActive()
      modifies this
      ensures (Snapshot(), written) == WriteStep(old(Snapshot()), output, fileWriteOk)
    {
      written := false;
      if maxSizeBytes == UnlimitedFileSize || writtenBytes + |output| <= maxSizeBytes {
        written := fileWriteOk;
        if written {
          contents := contents + output;
        }
      }
      if written {
        writtenBytes := writtenBytes + |output|;
      } else {
        isOpen := false;
        hasFile := false;
      }
    }

    /** The destructor: the file, if any, is closed and released. */
    method Close()
      modifies this
      ensures Snapshot() == old(Snapshot()).(active := false)
    {
      if hasFile {
        isOpen := false;
        hasFile := false;
      }
    }
  }
}
