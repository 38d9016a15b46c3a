/**
 * Python's `shlex.quote`, and a reader for the part of POSIX shell word
 * syntax that its output uses, so that quoting can be checked against
 * what a shell reads back.
 */
module ShellQuote {
  import opened Wrappers

  /** The characters `shlex.quote` leaves unquoted: ASCII letters and digits, `_`, and `@%+=:,./-`. */
  predicate IsSafeChar(c: char)
  {
    ('a' <= c <= 'z') || ('A' <= c <= 'Z') || ('0' <= c <= '9') || c in "_@%+=:,./-"
  }

  predicate AllSafe(s: string)
  {
    forall i :: 0 <= i < |s| ==> IsSafeChar(s[i])
  }

  /** Inside single quotes, each `'` is closed, written as `"'"`, and reopened. */
  function Escape(s: string): string
  {
    if s == [] then []
    else (if s[0] == '\'' then "'\"'\"'" else [s[0]]) + Escape(s[1..])
  }

  /** `shlex.quote(s)`. */
  function Quote(s: string): (r: string)
    ensures r != []
  {
    if s == [] then "''"
    else if AllSafe(s) then s
    else "'" + Escape(s) + "'"
  }

  /** Where the shell's reader is: outside quotes, inside '…', or inside "…". */
  datatype Mode = Bare | InSingle | InDouble

  /**
   * Reads one shell word from the front of `s`, removing quotes, and
   * returns its value and what follows the newline that ends it (or the
   * empty rest at end of input). `None` for an unterminated quote and for
   * anything outside the modelled subset: unquoted characters other than
   * the safe ones, and `\`, `$` or a backquote inside double quotes, all
   * of which the shell would expand or split on. A NUL character is
   * rejected in every mode: a shell variable cannot hold one.
   */
  function ReadWord(s: string, mode: Mode, acc: string): (r: Option<(string, string)>)
    ensures r.Some? ==> |r.value.1| <= |s|
    decreases |s|
  {
    if s == [] then (if mode == Bare then Some((acc, [])) else None)
    else
      var c := s[0];
      match mode
      case Bare =>
        if c == '\n' then Some((acc, s[1..]))
        else if c == '\'' then ReadWord(s[1..], InSingle, acc)
        else if c == '"' then ReadWord(s[1..], InDouble, acc)
        else if IsSafeChar(c) then ReadWord(s[1..], Bare, acc + [c])
        else None
      case InSingle =>
        if c == '\0' then None
        else if c == '\'' then ReadWord(s[1..], Bare, acc)
        else ReadWord(s[1..], InSingle, acc + [c])
      case InDouble =>
        if c == '"' then ReadWord(s[1..], Bare, acc)
        else if c in "\\$`\0" then None
        else ReadWord(s[1..], InDouble, acc + [c])
  }

  lemma {:induction false} ReadSafe(v: string, rest: string, acc: string)
    requires AllSafe(v)
    ensures ReadWord(v + rest, Bare, acc) == ReadWord(rest, Bare, acc + v)
    decreases |v|
  {
    if v != [] {
      assert (v + rest)[0] == v[0];
      assert (v + rest)[1..] == v[1..] + rest;
      assert acc + [v[0]] + v[1..] == acc + v;
      ReadSafe(v[1..], rest, acc + [v[0]]);
    } else {
      assert v + rest == rest;
      assert acc + v == acc;
    }
  }

  lemma {:induction false} ReadEscaped(v: string, rest: string, acc: string)
    requires '\0' !in v
    ensures ReadWord(Escape(v) + "'" + rest, InSingle, acc) == ReadWord(rest, Bare, acc + v)
    decreases |v|
  {
    if v == [] {
      assert Escape(v) + "'" + rest == ['\''] + rest;
      assert (['\''] + rest)[0] == '\'' && (['\''] + rest)[1..] == rest;
      assert acc + v == acc;
    } else {
      var t := Escape(v[1..]) + "'" + rest;
      ReadEscaped(v[1..], rest, acc + [v[0]]);
      assert acc + [v[0]] + v[1..] == acc + v;
      if v[0] == '\'' {
        var s := Escape(v) + "'" + rest;
        assert s == "'\"'\"'" + t;
        calc {
          ReadWord(s, InSingle, acc);
          ReadWord(s[1..], Bare, acc);
          { assert s[1..][0] == '"' && s[1..][1..] == s[2..]; }
          ReadWord(s[2..], InDouble, acc);
          { assert s[2..][0] == '\'' && s[2..][1..] == s[3..]; }
          ReadWord(s[3..], InDouble, acc + "'");
          { assert s[3..][0] == '"' && s[3..][1..] == s[4..]; }
          ReadWord(s[4..], Bare, acc + "'");
          { assert s[4..][0] == '\'' && s[4..][1..] == t; }
          ReadWord(t, InSingle, acc + [v[0]]);
        }
      } else {
        var s := Escape(v) + "'" + rest;
        assert s == [v[0]] + t;
        assert s[1..] == t;
      }
    }
  }

  /**
   * What `Quote` produces, followed by the newline that ends an export
   * line, is read back by the shell as exactly the original value, as
   * long as that value holds no NUL character.
   */
  lemma QuoteRoundTrip(v: string, rest: string)
    requires '\0' !in v
    ensures ReadWord(Quote(v) + "\n" + rest, Bare, "") == Some((v, rest))
    ensures ReadWord(Quote(v), Bare, "") == Some((v, []))
  {
    ReadQuoted(v, "\n" + rest);
    ReadQuoted(v, []);
    assert ("\n" + rest)[0] == '\n' && ("\n" + rest)[1..] == rest;
    assert Quote(v) + "\n" + rest == Quote(v) + ("\n" + rest);
    assert Quote(v) + [] == Quote(v);
  }

  lemma ReadQuoted(v: string, rest: string)
    requires '\0' !in v
    ensures ReadWord(Quote(v) + rest, Bare, "") == ReadWord(rest, Bare, v)
  {
    if v == [] {
      ReadEmptyQuotes(rest);
    } else if AllSafe(v) {
      assert Quote(v) == v;
      ReadSafe(v, rest, "");
      assert "" + v == v;
    } else {
      assert Quote(v) + rest == "'" + (Escape(v) + "'" + rest);
      ReadOpeningQuote(Escape(v) + "'" + rest);
      ReadEscaped(v, rest, "");
      assert "" + v == v;
    }
  }

  lemma ReadEmptyQuotes(rest: string)
    ensures ReadWord("''" + rest, Bare, "") == ReadWord(rest, Bare, "")
  {
    var s := "''" + rest;
    assert s[0] == '\'' && s[1..] == "'" + rest;
    assert s[1..][0] == '\'' && s[1..][1..] == rest;
  }

  lemma ReadOpeningQuote(t: string)
    ensures ReadWord("'" + t, Bare, "") == ReadWord(t, InSingle, "")
  {
    assert ("'" + t)[0] == '\'' && ("'" + t)[1..] == t;
  }
}
