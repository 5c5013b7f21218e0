/** The header-stub tool: the include guard it expects in a header, and which files it
    rewrites. Strings are byte strings under Python 2, so `lower`, `isalnum` and `upper`
    act on ASCII letters and digits only. */
module StubHeaders {

  predicate IsAsciiUpper(c: char) { 'A' <= c <= 'Z' }
  predicate IsAsciiLower(c: char) { 'a' <= c <= 'z' }
  predicate IsAsciiDigit(c: char) { '0' <= c <= '9' }

  /** `str.isalnum` on one character. */
  predicate IsAlnum(c: char)
  {
    IsAsciiUpper(c) || IsAsciiLower(c) || IsAsciiDigit(c)
  }

  function Lower(c: char): (r: char)
    ensures IsAlnum(r) == IsAlnum(c)
    ensures !IsAsciiUpper(r)
  {
    if IsAsciiUpper(c) then c - 'A' + 'a' else c
  }

  function Upper(c: char): (r: char)
    ensures IsAlnum(r) == IsAlnum(c)
    ensures !IsAsciiLower(r)
  {
    if IsAsciiLower(c) then c - 'a' + 'A' else c
  }

  /** One character of the guard: lower-cased, replaced by `_` unless alphanumeric, then
      upper-cased. */
  function GuardChar(c: char): (r: char)
    ensures IsAlnum(c) ==> r == Upper(c)
    ensures !IsAlnum(c) ==> r == '_'
    ensures IsAsciiUpper(r) || IsAsciiDigit(r) || r == '_'
  {
    var l := Lower(c);
    Upper(if IsAlnum(l) then l else '_')
  }

  /** `_calc_header_guard`. */
  function HeaderGuard(dirname: string, filename: string): (r: string)
    ensures |r| == |dirname| + |filename| + 2 && r[|r| - 1] == '_'
    ensures forall i :: 0 <= i < |r| ==> GuardAlphabet(r[i])
  {
    var joined := dirname + "_" + filename;
    seq(|joined|, i requires 0 <= i < |joined| => GuardChar(joined[i])) + "_"
  }

  /** The characters a guard is made of: upper-case letters, digits and `_`. */
  predicate GuardAlphabet(c: char)
  {
    IsAsciiUpper(c) || IsAsciiDigit(c) || c == '_'
  }

  /** The guard is one character per character of `dirname_filename` plus a trailing `_`;
      letters and digits keep their place up to case, everything else becomes `_`. */
  lemma HeaderGuardShape(dirname: string, filename: string)
    ensures var r := HeaderGuard(dirname, filename);
      && |r| == |dirname| + |filename| + 2
      && r[|r| - 1] == '_'
      && r[|dirname|] == '_'
      && (forall i :: 0 <= i < |r| ==> GuardAlphabet(r[i]))
      && (forall i :: 0 <= i < |dirname| ==> r[i] == GuardChar(dirname[i]))
      && (forall i :: 0 <= i < |filename| ==> r[|dirname| + 1 + i] == GuardChar(filename[i]))
  {
    var joined := dirname + "_" + filename;
    var r := HeaderGuard(dirname, filename);
    forall i | 0 <= i < |filename|
      ensures r[|dirname| + 1 + i] == GuardChar(filename[i])
    {
      assert joined[|dirname| + 1 + i] == filename[i];
    }
  }

  /** A guard is its own guard character by character: the mapping is idempotent. */
  lemma GuardCharIdempotent(c: char)
    ensures GuardChar(GuardChar(c)) == GuardChar(c)
  {
  }

  /** Alphanumeric characters that differ only in case give the same guard character, so
      the guard ignores case. */
  lemma GuardIgnoresCase(c: char)
    requires IsAsciiLower(c)
    ensures GuardChar(c) == GuardChar(c - 'a' + 'A')
  {
  }

  /** `main`'s filter: headers other than `sslroots.h`. */
  predicate IsStubbed(filename: string): (r: bool)
    ensures r ==> |filename| >= 2 && filename[|filename| - 2] == '.' && filename[|filename| - 1] == 'h'
    ensures filename == "sslroots.h" ==> !r
  {
    |filename| >= 2 && filename[|filename| - 2..] == ".h" && filename != "sslroots.h"
  }

  /** The files the tool rewrites, in the order `os.walk` lists them. */
  function StubbedFiles(files: seq<string>): (r: seq<string>)
    ensures forall f :: f in r <==> f in files && IsStubbed(f)
    ensures |r| <= |files|
    decreases |files|
  {
    if files == [] then []
    else (if IsStubbed(files[0]) then [files[0]] else []) + StubbedFiles(files[1..])
  }

  lemma SslRootsNeverStubbed(files: seq<string>)
    ensures "sslroots.h" !in StubbedFiles(files)
  {
  }
}
