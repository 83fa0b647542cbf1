/**
 * The PHP built-ins the command relies on, stated as the PHP runtime defines
 * them: truthiness and `empty()` on strings, `filter_var` with
 * FILTER_VALIDATE_BOOLEAN, `dirname` and `escapeshellarg` (POSIX flavour).
 */
module Php {
  import opened Wrappers

  /** A value as `string_to_bool` can hand it back: a bool, or the string it was given. */
  datatype Value = Bool(b: bool) | Str(s: string)

  /** PHP's `empty()` on a string: only "" and "0" are empty. */
  predicate IsEmpty(s: string)
  {
    s == "" || s == "0"
  }

  /** PHP's conversion to bool, as `if (!$x)` applies it. */
  predicate Truthy(v: Value)
  {
    match v
    case Bool(b) => b
    case Str(s) => !IsEmpty(s)
  }

  /** The characters `filter_var` strips from both ends before validating a boolean. */
  predicate IsFilterBlank(ch: char)
  {
    ch == ' ' || ch == '\t' || ch == '\r' || ch == '\n' || ch == '\U{B}'
  }

  function TrimStart(s: string): (r: string)
    ensures |r| <= |s| && r == s[|s| - |r|..]
    ensures r == [] || !IsFilterBlank(r[0])
  {
    if s != [] && IsFilterBlank(s[0]) then TrimStart(s[1..]) else s
  }

  function TrimEnd(s: string): (r: string)
    ensures |r| <= |s| && r == s[..|r|]
    ensures r == [] || !IsFilterBlank(r[|r| - 1])
  {
    if s != [] && IsFilterBlank(s[|s| - 1]) then TrimEnd(s[..|s| - 1]) else s
  }

  function LowerChar(ch: char): char
  {
    if 'A' <= ch <= 'Z' then (ch as int - 'A' as int + 'a' as int) as char else ch
  }

  /** ASCII lower-casing, which is what `strncasecmp` compares by. */
  function Lower(s: string): (r: string)
    ensures |r| == |s| && forall i :: 0 <= i < |s| ==> r[i] == LowerChar(s[i])
  {
    seq(|s|, i requires 0 <= i < |s| => LowerChar(s[i]))
  }

  /**
   * `filter_var($s, FILTER_VALIDATE_BOOLEAN, FILTER_NULL_ON_FAILURE)`: after
   * trimming, "1", "true", "on" and "yes" are true; "0", "false", "off",
   * "no" and "" are false (letters in any case); anything else is null (None).
   */
  function FilterBool(s: string): Option<bool>
  {
    var t := Lower(TrimEnd(TrimStart(s)));
    if t == "1" || t == "true" || t == "on" || t == "yes" then Some(true)
    else if t == "0" || t == "false" || t == "off" || t == "no" || t == "" then Some(false)
    else None
  }

  /** The strings `filter_var` refuses are never falsy: "" and "0" are both recognised. */
  lemma EmptyStringsAreBooleans(s: string)
    requires IsEmpty(s)
    ensures FilterBool(s) == Some(false)
  {
    assert TrimStart(s) == s;
    assert TrimEnd(s) == s;
    assert Lower(s) == s;
  }

  /** A string `filter_var` refuses as a boolean is truthy to PHP. */
  lemma RefusedStringsAreTruthy(s: string)
    ensures FilterBool(s).None? ==> Truthy(Str(s))
  {
    if IsEmpty(s) {
      EmptyStringsAreBooleans(s);
    }
  }

  /** Drops every '/' at the end of `s`. */
  function DropTrailingSlashes(s: string): (r: string)
    ensures |r| <= |s| && r == s[..|r|]
    ensures r == [] || r[|r| - 1] != '/'
    ensures forall i :: |r| <= i < |s| ==> s[i] == '/'
  {
    if s != [] && s[|s| - 1] == '/' then DropTrailingSlashes(s[..|s| - 1]) else s
  }

  /** Drops the trailing run of characters other than '/'. */
  function DropBasename(s: string): (r: string)
    ensures |r| <= |s| && r == s[..|r|]
    ensures r == [] || r[|r| - 1] == '/'
    ensures forall i :: |r| <= i < |s| ==> s[i] != '/'
  {
    if s != [] && s[|s| - 1] != '/' then DropBasename(s[..|s| - 1]) else s
  }

  /**
   * PHP's `dirname` on POSIX: "" stays "", a path of slashes only gives "/",
   * a name without any slash gives ".", otherwise the trailing slashes, the
   * last name and the slashes before it are removed ("/" if nothing is left).
   */
  function Dirname(path: string): string
  {
    if path == [] then []
    else
      var a := DropTrailingSlashes(path);
      if a == [] then "/"
      else
        var b := DropBasename(a);
        if b == [] then "."
        else
          var c := DropTrailingSlashes(b);
          if c == [] then "/" else c
  }

  /** Only "" has an empty directory part; otherwise it is "/", "." or a proper prefix of the path ending before a '/'. */
  lemma DirnameShape(path: string)
    ensures var r := Dirname(path);
      (r == [] <==> path == [])
      && (r == "/" || r == "." || r == [] || (|r| < |path| && r == path[..|r|] && path[|r|] == '/'))
  {
    if path != [] {
      var a := DropTrailingSlashes(path);
      if a != [] {
        var b := DropBasename(a);
        if b != [] {
          var c := DropTrailingSlashes(b);
          assert |c| < |b| && b[|c|] == '/';
        }
      }
    }
  }

  lemma {:induction false} DropBasenameAfterSlash(dir: string, base: string)
    requires '/' !in base
    ensures DropBasename(dir + "/" + base) == dir + "/"
    decreases |base|
  {
    if base == [] {
      assert dir + "/" + base == dir + "/";
    } else {
      var s := dir + "/" + base;
      assert s[|s| - 1] == base[|base| - 1];
      assert s[..|s| - 1] == dir + "/" + base[..|base| - 1];
      DropBasenameAfterSlash(dir, base[..|base| - 1]);
    }
  }

  /** The directory part of "dir/base" is `dir`, whatever `base` holds besides slashes. */
  lemma DirnameOfChild(dir: string, base: string)
    requires dir != [] && dir[|dir| - 1] != '/'
    requires base != [] && '/' !in base
    ensures Dirname(dir + "/" + base) == dir
  {
    var path := dir + "/" + base;
    assert path[|path| - 1] == base[|base| - 1];
    assert DropTrailingSlashes(path) == path;
    DropBasenameAfterSlash(dir, base);
    var b := dir + "/";
    assert b[..|b| - 1] == dir;
    assert DropTrailingSlashes(b) == dir;
  }

  /** `str_replace("'", "'\\''", $s)`: each quote closes, escapes and reopens the quoting. */
  function EscapeQuotes(s: string): string
  {
    if s == [] then []
    else (if s[0] == '\'' then "'\\''" else [s[0]]) + EscapeQuotes(s[1..])
  }

  /** PHP's `escapeshellarg` on POSIX: the argument in single quotes. */
  function EscapeShellArg(s: string): (r: string)
    ensures |r| >= 2 && r[0] == '\'' && r[|r| - 1] == '\''
  {
    "'" + EscapeQuotes(s) + "'"
  }

  /**
   * How /bin/sh reads one word made of single-quoted runs and
   * backslash-escaped characters, the forms `escapeshellarg` writes;
   * `quoted` says whether a single quote is open. None for a quote left
   * open or any other unquoted character.
   */
  function ShellWord(s: string, quoted: bool): Option<string>
  {
    if s == [] then (if quoted then None else Some([]))
    else if quoted then
      (if s[0] == '\'' then ShellWord(s[1..], false) else Prepend(s[0], ShellWord(s[1..], true)))
    else if s[0] == '\'' then ShellWord(s[1..], true)
    else if s[0] == '\\' && |s| >= 2 then Prepend(s[1], ShellWord(s[2..], false))
    else None
  }

  function Prepend(c: char, w: Option<string>): Option<string>
  {
    match w
    case None => None
    case Some(t) => Some([c] + t)
  }

  /** The shell reads back exactly the argument `escapeshellarg` quoted. */
  lemma ShellReadsEscaped(s: string)
    ensures ShellWord(EscapeShellArg(s), false) == Some(s)
  {
    var rest := EscapeQuotes(s) + "'";
    assert EscapeShellArg(s) == "'" + rest;
    assert ("'" + rest)[1..] == rest;
    ShellReadsQuotedRest(s);
  }

  /** Inside the opening quote: the escaped text and the closing quote read back as `s`. */
  lemma {:induction false} ShellReadsQuotedRest(s: string)
    ensures ShellWord(EscapeQuotes(s) + "'", true) == Some(s)
    decreases |s|, 1
  {
    if s == [] {
      assert EscapeQuotes(s) + "'" == "'";
      assert "'"[1..] == [];
    } else if s[0] == '\'' {
      ShellReadsQuote(s);
    } else {
      ShellReadsPlain(s);
    }
  }

  /** A quote closes the run, is read escaped, and a new run opens. */
  lemma {:induction false} ShellReadsQuote(s: string)
    requires s != [] && s[0] == '\''
    ensures ShellWord(EscapeQuotes(s) + "'", true) == Some(s)
    decreases |s|, 0
  {
    var rest := EscapeQuotes(s[1..]) + "'";
    ShellReadsQuotedRest(s[1..]);
    var w := "'\\''" + rest;
    assert EscapeQuotes(s) + "'" == w;
    var u := w[1..];
    assert w[0] == '\'' && u == "\\''" + rest;
    assert ShellWord(w, true) == ShellWord(u, false);
    var v := u[2..];
    assert u[0] == '\\' && u[1] == '\'' && v == "'" + rest;
    assert ShellWord(u, false) == Prepend('\'', ShellWord(v, false));
    assert v[0] == '\'' && v[1..] == rest;
    assert ShellWord(v, false) == Some(s[1..]);
    assert [s[0]] + s[1..] == s;
  }

  /** Any other character is read as itself. */
  lemma {:induction false} ShellReadsPlain(s: string)
    requires s != [] && s[0] != '\''
    ensures ShellWord(EscapeQuotes(s) + "'", true) == Some(s)
    decreases |s|, 0
  {
    var rest := EscapeQuotes(s[1..]) + "'";
    ShellReadsQuotedRest(s[1..]);
    var w := [s[0]] + rest;
    assert EscapeQuotes(s) + "'" == w;
    assert w[0] == s[0] && w[1..] == rest;
    assert ShellWord(w, true) == Prepend(s[0], ShellWord(rest, true));
    assert [s[0]] + s[1..] == s;
  }
}
