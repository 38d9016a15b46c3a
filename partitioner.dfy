/**
 * The secret/variable partitioner (scripts/create_kamal_secrets.py):
 * selects the `KAMAL_`-prefixed CI secrets and variables, strips the
 * prefix, and produces the `.kamal/secrets` reference lines, the export
 * script of custom secret values, the custom variables and the custom
 * secret names for the manifest synthesizer.
 */
module Partitioner {
  import opened Wrappers
  import opened OrderedMaps
  import opened ShellQuote

  const Prefix: string := "KAMAL_"
  /** The secret names both deploy stages refer to: the registry password, and the database's three. */
  const RegistryPasswordName: string := "KAMAL_REGISTRY_PASSWORD"
  const DbSecretNames: seq<string> := ["POSTGRES_USER", "POSTGRES_PASSWORD", "DATABASE_URL"]

  /** The key starts with the `KAMAL_` prefix. */
  predicate HasPrefix(k: string)
  {
    |Prefix| <= |k| && k[..|Prefix|] == Prefix
  }

  /** The key without its prefix: the logical name, from which the key is rebuilt by prefixing. */
  function StripPrefix(k: string): (n: string)
    requires HasPrefix(k)
    ensures Prefix + n == k
  {
    k[|Prefix|..]
  }

  /** The prefixed entries of a bag, prefix stripped, in the bag's order. */
  function Selected(bag: OMap<string>): OMap<string>
  {
    if bag == [] then []
    else
      var (k, v) := bag[|bag| - 1];
      Selected(bag[..|bag| - 1]) + (if HasPrefix(k) then [(StripPrefix(k), v)] else [])
  }

  /** The prefixed keys of a key list, in order. */
  function PrefixedKeys(ks: seq<string>): seq<string>
  {
    if ks == [] then []
    else PrefixedKeys(ks[..|ks| - 1]) + (if HasPrefix(ks[|ks| - 1]) then [ks[|ks| - 1]] else [])
  }

  function AddPrefix(names: seq<string>): (ks: seq<string>)
  {
    seq(|names|, i requires 0 <= i < |names| => Prefix + names[i])
  }

  /**
   * A custom name `n` is selected exactly when the bag has the key
   * `KAMAL_` + `n`, and it carries that key's value; keys without the
   * prefix contribute nothing.
   */
  lemma {:induction false} SelectedGet(bag: OMap<string>)
    ensures forall n :: Get(Selected(bag), n) == Get(bag, Prefix + n)
  {
    if bag != [] {
      var init := bag[..|bag| - 1];
      var (k, v) := bag[|bag| - 1];
      assert bag == init + [(k, v)];
      SelectedGet(init);
      var tail := if HasPrefix(k) then [(StripPrefix(k), v)] else [];
      forall n ensures Get(Selected(bag), n) == Get(bag, Prefix + n) {
        GetAppend(Selected(init), tail, n);
        GetAppend(init, [(k, v)], Prefix + n);
        assert (Prefix + n)[..|Prefix|] == Prefix;
        assert n in Keys(Selected(init)) <==> Prefix + n in Keys(init);
        if HasPrefix(k) {
          assert StripPrefix(k) == n <==> k == Prefix + n;
        }
      }
    }
  }

  /**
   * Putting the prefix back on the custom names gives exactly the prefixed
   * source keys, in source order: stripping loses nothing and merges nothing.
   */
  lemma {:induction false} SelectedKeys(bag: OMap<string>)
    ensures AddPrefix(Keys(Selected(bag))) == PrefixedKeys(Keys(bag))
    ensures |Selected(bag)| == |PrefixedKeys(Keys(bag))|
  {
    if bag != [] {
      var init := bag[..|bag| - 1];
      var (k, v) := bag[|bag| - 1];
      assert Keys(init) == Keys(bag)[..|bag| - 1];
      SelectedKeys(init);
      if HasPrefix(k) {
        assert AddPrefix(Keys(Selected(bag))) == AddPrefix(Keys(Selected(init))) + [k];
      } else {
        assert Selected(bag) == Selected(init);
      }
    }
  }

  /** Distinct source keys give distinct custom names. */
  lemma {:induction false} SelectedUnique(bag: OMap<string>)
    requires UniqueKeys(bag)
    ensures UniqueKeys(Selected(bag))
  {
    if bag != [] {
      var init := bag[..|bag| - 1];
      var (k, v) := bag[|bag| - 1];
      assert UniqueKeys(init);
      SelectedUnique(init);
      if HasPrefix(k) {
        var n := StripPrefix(k);
        SelectedGet(init);
        InKeys(init, k);
        assert Get(init, k).None?;
        assert n !in Keys(Selected(init));
        InKeys(Selected(init), n);
      }
    }
  }

  /**
   * The collection loop: `custom[stripped] = v` for every prefixed key in
   * bag order. Bag keys are distinct (the bag is a dict), so no entry is
   * ever overwritten.
   */
  method CollectCustom(bag: OMap<string>) returns (custom: OMap<string>)
    requires UniqueKeys(bag)
    ensures custom == Selected(bag)
    ensures UniqueKeys(custom)
    ensures forall n :: Get(custom, n) == Get(bag, Prefix + n)
  {
    custom := [];
    for i := 0 to |bag|
      invariant custom == Selected(bag[..i])
    {
      var (k, v) := bag[i];
      assert bag[..i + 1][..i] == bag[..i];
      if HasPrefix(k) {
        var stripped := StripPrefix(k);
        SelectedGet(bag[..i]);
        InKeys(bag[..i], k);
        assert Get(bag[..i], k).None?;
        custom := Set(custom, stripped, v);
      }
    }
    assert bag[..|bag|] == bag;
    SelectedUnique(bag);
    SelectedGet(bag);
  }

  /** One `.kamal/secrets` line: `NAME=$NAME`, a reference, never a value. */
  function RefLine(name: string): string
  {
    name + "=$" + name
  }

  /** The names `.kamal/secrets` references, in file order. */
  function ReferencedNames(dbEnabled: bool, customNames: seq<string>): seq<string>
  {
    [RegistryPasswordName] + (if dbEnabled then DbSecretNames else []) + customNames
  }

  /**
   * The `lines` list: the registry line, the three database lines when the
   * database is enabled, then one line per custom secret, with no
   * de-duplication. Only the names of `customSecrets` are used.
   */
  method BuildSecretLines(dbEnabled: bool, customSecrets: OMap<string>) returns (lines: seq<string>)
    ensures |lines| == 1 + (if dbEnabled then 3 else 0) + |customSecrets|
    ensures lines[0] == RefLine(RegistryPasswordName)
    ensures dbEnabled ==> lines[1..4] == [RefLine("POSTGRES_USER"), RefLine("POSTGRES_PASSWORD"), RefLine("DATABASE_URL")]
    ensures forall i :: 0 <= i < |customSecrets| ==> lines[|lines| - |customSecrets| + i] == RefLine(customSecrets[i].0)
    ensures forall i :: 0 <= i < |lines| ==> lines[i] == RefLine(ReferencedNames(dbEnabled, Keys(customSecrets))[i])
  {
    var names := ReferencedNames(dbEnabled, Keys(customSecrets));
    lines := [RefLine(RegistryPasswordName)];
    if dbEnabled {
      lines := lines + [RefLine(DbSecretNames[0])];
      lines := lines + [RefLine(DbSecretNames[1])];
      lines := lines + [RefLine(DbSecretNames[2])];
    }
    var base := |lines|;
    for i := 0 to |customSecrets|
      invariant |lines| == base + i
      invariant forall j :: 0 <= j < |lines| ==> lines[j] == RefLine(names[j])
    {
      lines := lines + [RefLine(customSecrets[i].0)];
    }
  }

  /** Joining the strings with a separator between each pair, as Python's `str.join` does. */
  function Join(xs: seq<string>, sep: string): string
  {
    if xs == [] then ""
    else if |xs| == 1 then xs[0]
    else Join(xs[..|xs| - 1], sep) + sep + xs[|xs| - 1]
  }

  /** Each line followed by a newline. */
  function Terminated(xs: seq<string>): string
  {
    if xs == [] then "" else Terminated(xs[..|xs| - 1]) + xs[|xs| - 1] + "\n"
  }

  /** The text written to `.kamal/secrets`: the lines separated by newlines, with one more newline at the end. */
  function SecretsFileText(lines: seq<string>): string
  {
    Join(lines, "\n") + "\n"
  }

  /** Since there is always at least the registry line, every line of the file ends in a newline. */
  lemma {:induction false} SecretsFileTerminated(lines: seq<string>)
    requires lines != []
    ensures SecretsFileText(lines) == Terminated(lines)
  {
    if |lines| > 1 {
      var init := lines[..|lines| - 1];
      SecretsFileTerminated(init);
    }
  }

  const ExportKeyword: string := "export "

  /** One line of the export script: the `export` keyword, the name, `=`, the quoted value and a newline. */
  function ExportLine(name: string, value: string): string
  {
    ExportKeyword + name + "=" + Quote(value) + "\n"
  }

  /** The export script for a list of entries, one line each, in order. */
  function ExportScript(entries: OMap<string>): string
  {
    if entries == [] then ""
    else ExportScript(entries[..|entries| - 1]) + ExportLine(entries[|entries| - 1].0, entries[|entries| - 1].1)
  }

  /**
   * Writing the export script: one `export` line per custom secret,
   * in the order of `customSecrets`.
   */
  method BuildExportScript(customSecrets: OMap<string>) returns (script: string)
    ensures script == ExportScript(customSecrets)
    ensures Exportable(customSecrets) ==> ParseExports(script) == Some(customSecrets)
  {
    script := "";
    for i := 0 to |customSecrets|
      invariant script == ExportScript(customSecrets[..i])
    {
      var (name, value) := customSecrets[i];
      assert customSecrets[..i + 1][..i] == customSecrets[..i];
      script := script + ExportLine(name, value);
    }
    assert customSecrets[..|customSecrets|] == customSecrets;
    if Exportable(customSecrets) {
      ExportScriptRoundTrip(customSecrets);
    }
  }

  /**
   * Entries the export script carries over faithfully: every name is a
   * shell variable name and no value holds a NUL character.
   */
  predicate Exportable(entries: OMap<string>)
  {
    forall i :: 0 <= i < |entries| ==> IsShellName(entries[i].0) && '\0' !in entries[i].1
  }

  /** A name `export` accepts: a letter or `_`, then letters, digits and `_`. */
  predicate IsShellName(n: string)
  {
    && |n| > 0
    && (('a' <= n[0] <= 'z') || ('A' <= n[0] <= 'Z') || n[0] == '_')
    && forall i :: 0 <= i < |n| ==> ('a' <= n[i] <= 'z') || ('A' <= n[i] <= 'Z') || ('0' <= n[i] <= '9') || n[i] == '_'
  }

  function IndexOfChar(s: string, c: char): (r: Option<nat>)
    ensures r.Some? ==> r.value < |s| && s[r.value] == c && c !in s[..r.value]
    ensures r.None? ==> c !in s
  {
    if s == [] then None
    else if s[0] == c then Some(0)
    else match IndexOfChar(s[1..], c)
      case None => None
      case Some(i) =>
        assert s[..i + 1] == [s[0]] + s[1..][..i];
        Some(i + 1)
  }

  /**
   * What a shell sourcing the export script assigns, in order: each line
   * is `export `, a name up to the first `=`, and one word ended by a
   * newline. `None` for text outside that form.
   */
  function ParseExports(s: string): (r: Option<OMap<string>>)
    decreases |s|
  {
    if s == [] then Some([])
    else if !(|ExportKeyword| <= |s| && s[..|ExportKeyword|] == ExportKeyword) then None
    else
      var body := s[|ExportKeyword|..];
      match IndexOfChar(body, '=')
      case None => None
      case Some(i) =>
        if !IsShellName(body[..i]) then None
        else match ReadWord(body[i + 1..], Bare, "")
          case None => None
          case Some((value, rest)) =>
            match ParseExports(rest)
            case None => None
            case Some(tail) => Some([(body[..i], value)] + tail)
  }

  function Prepend(entries: OMap<string>, r: Option<OMap<string>>): Option<OMap<string>>
  {
    match r
    case None => None
    case Some(tail) => Some(entries + tail)
  }

  lemma ShellNameHasNoEquals(n: string)
    requires IsShellName(n)
    ensures '=' !in n
  {
  }

  lemma FirstEquals(name: string, t: string)
    requires '=' !in name
    ensures IndexOfChar(name + "=" + t, '=') == Some(|name|)
  {
    var body := name + "=" + t;
    assert body[|name|] == '=' && body[..|name|] == name;
  }

  /** One export line: `export `, a shell name, `=`, then the word the shell reads. */
  lemma ParseOneExport(name: string, word: string)
    requires IsShellName(name)
    ensures ReadWord(word, Bare, "").None? ==> ParseExports(ExportKeyword + (name + "=" + word)) == None
    ensures ReadWord(word, Bare, "").Some? ==>
              var (value, rest) := ReadWord(word, Bare, "").value;
              ParseExports(ExportKeyword + (name + "=" + word)) == Prepend([(name, value)], ParseExports(rest))
  {
    var body := name + "=" + word;
    var s := ExportKeyword + body;
    assert s != [] && s[..|ExportKeyword|] == ExportKeyword && s[|ExportKeyword|..] == body;
    ShellNameHasNoEquals(name);
    FirstEquals(name, word);
    assert body[..|name|] == name && body[|name| + 1..] == word;
  }

  lemma ExportLineRoundTrip(name: string, value: string, rest: string)
    requires IsShellName(name) && '\0' !in value
    ensures ParseExports(ExportLine(name, value) + rest) == Prepend([(name, value)], ParseExports(rest))
  {
    var word := Quote(value) + "\n" + rest;
    assert ExportLine(name, value) + rest == ExportKeyword + (name + "=" + word);
    ParseOneExport(name, word);
    QuoteRoundTrip(value, rest);
  }

  /** Sourcing the export script sets exactly the custom secrets, in order, to their original values. */
  lemma {:induction false} ExportScriptRoundTrip(entries: OMap<string>)
    requires Exportable(entries)
    ensures ParseExports(ExportScript(entries)) == Some(entries)
  {
    ExportScriptPrefix(entries, "");
    assert ExportScript(entries) + "" == ExportScript(entries);
    assert entries + [] == entries;
  }

  lemma {:induction false} ExportScriptPrefix(entries: OMap<string>, rest: string)
    requires Exportable(entries)
    ensures ParseExports(ExportScript(entries) + rest) == Prepend(entries, ParseExports(rest))
  {
    if entries == [] {
      assert ExportScript(entries) + rest == rest;
      PrependTwice([], [], ParseExports(rest));
    } else {
      var init := entries[..|entries| - 1];
      var n := entries[|entries| - 1].0;
      var v := entries[|entries| - 1].1;
      var line := ExportLine(n, v);
      assert forall i :: 0 <= i < |init| ==> init[i] == entries[i];
      calc {
        ParseExports(ExportScript(entries) + rest);
        { ExportScriptSnoc(entries, rest); }
        ParseExports(ExportScript(init) + (line + rest));
        { ExportScriptPrefix(init, line + rest); }
        Prepend(init, ParseExports(line + rest));
        { ExportLineRoundTrip(n, v, rest); }
        Prepend(init, Prepend([(n, v)], ParseExports(rest)));
        { PrependTwice(init, [(n, v)], ParseExports(rest)); }
        Prepend(init + [(n, v)], ParseExports(rest));
        { assert init + [(n, v)] == entries; }
        Prepend(entries, ParseExports(rest));
      }
    }
  }

  lemma ExportScriptSnoc(entries: OMap<string>, rest: string)
    requires entries != []
    ensures ExportScript(entries) + rest ==
            ExportScript(entries[..|entries| - 1]) + (ExportLine(entries[|entries| - 1].0, entries[|entries| - 1].1) + rest)
  {
    Associative(ExportScript(entries[..|entries| - 1]), ExportLine(entries[|entries| - 1].0, entries[|entries| - 1].1), rest);
  }

  lemma Associative(a: string, b: string, c: string)
    ensures a + b + c == a + (b + c)
  {
  }

  lemma PrependTwice(a: OMap<string>, b: OMap<string>, r: Option<OMap<string>>)
    ensures Prepend(a, Prepend(b, r)) == Prepend(a + b, r)
    ensures a == [] && b == [] ==> Prepend(a, r) == r
  {
    if r.Some? {
      assert [] + r.value == r.value;
      assert a + (b + r.value) == a + b + r.value;
    }
  }


  /** Everything the partitioner writes, as values. */
  datatype Artifacts = Artifacts(
    secretLines: seq<string>,       // the lines of .kamal/secrets
    secretsFile: string,            // the text written to .kamal/secrets
    exportScript: string,           // the sourceable export script of custom secret values
    customVars: OMap<string>,       // written as the custom-vars JSON object
    customSecretNames: seq<string>  // written as the custom-secret-names JSON array
  )

  /** The whole script, with its inputs and outputs as values. */
  method Partition(secrets: OMap<string>, variables: OMap<string>, dbEnabled: bool) returns (a: Artifacts)
    requires UniqueKeys(secrets) && UniqueKeys(variables)
    ensures UniqueKeys(a.customVars)
    ensures forall n :: Get(a.customVars, n) == Get(variables, Prefix + n)
    ensures a.customVars == Selected(variables)
    ensures a.customSecretNames == Keys(Selected(secrets))
    ensures forall n :: n in a.customSecretNames <==> Prefix + n in Keys(secrets)
    ensures |a.secretLines| == |ReferencedNames(dbEnabled, a.customSecretNames)|
    ensures forall i :: 0 <= i < |a.secretLines| ==> a.secretLines[i] == RefLine(ReferencedNames(dbEnabled, a.customSecretNames)[i])
    ensures a.secretsFile == SecretsFileText(a.secretLines) == Terminated(a.secretLines)
    ensures a.exportScript == ExportScript(Selected(secrets))
    ensures Exportable(Selected(secrets)) ==> ParseExports(a.exportScript) == Some(Selected(secrets))
  {
    var customSecrets := CollectCustom(secrets);
    var customVars := CollectCustom(variables);
    var lines := BuildSecretLines(dbEnabled, customSecrets);
    var script := BuildExportScript(customSecrets);
    SecretsFileTerminated(lines);
    a := Artifacts(lines, SecretsFileText(lines), script, customVars, Keys(customSecrets));
    forall n ensures n in a.customSecretNames <==> Prefix + n in Keys(secrets) {
      GetUnique(customSecrets, n);
      GetUnique(secrets, Prefix + n);
    }
  }
}
