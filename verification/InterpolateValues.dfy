/** What a single reference stands for: variable, default, file, or an error. */
module InterpolateValues {
  import opened Lifecycle
  import opened Interpolate
  import opened InterpolateResolve
  import opened InterpolateEscape

  predicate Plain(text: string) {
    forall c :: c in text ==> c !in {'$', '}'}
  }

  /** The text has no `:-`. */
  ghost predicate NoSeparator(text: string) {
    forall k :: 0 <= k < |text| - 1 ==> !(text[k] == ':' && text[k + 1] == '-')
  }

  /** A string that is one reference of the scheme yields what the reference stands for, or names it. */
  lemma WholeReference(scheme: string, arg: string, expand: Expander)
    requires Plain(scheme + ":" + arg)
    ensures Substitute("${" + (scheme + ":" + arg) + "}", scheme, expand) ==
      match expand(arg) case Some(v) => Outcome.Ok(v) case None => NotExpanded(arg)
  {
    hide Substitute, Depth, NoLeafStarts, IsLeaf, IsOpen;
    var body := scheme + ":" + arg;
    SchemeArgument(scheme, arg);
    if expand(arg).Some? {
      WholeResolves(body, scheme, expand, expand(arg).value);
    } else {
      WholeFails(body, scheme, expand);
    }
  }

  lemma WholeFails(body: string, scheme: string, expand: Expander)
    requires Plain(body) && Matches(scheme, body) && expand(Argument(scheme, body)).None?
    ensures Substitute("${" + body + "}", scheme, expand) == NotExpanded(Argument(scheme, body))
  {
    hide Depth, NoLeafStarts, IsLeaf, IsOpen;
    var s := "${" + body + "}";
    var t := Token(0, |s|);
    WholeLeaf(body);
    LeafSize(s, t);
    SingleLeafCloses(s, t);
    LeafFails(s, t, scheme, expand);
    NothingLeft(s, scheme, expand);
  }

  lemma WholePlain(body: string)
    requires Plain(body)
    ensures Plain("env:" + body) && Plain("file:" + body)
  {
  }

  // ---------------------------------------------------------------- variables

  lemma SeparatorChars(arg: string, k: nat)
    ensures SeparatorAt(arg, k) <==> k + 2 <= |arg| && arg[k] == ':' && arg[k + 1] == '-'
  {
    if k + 2 <= |arg| {
      var pair := arg[k..k + 2];
      assert pair[0] == arg[k] && pair[1] == arg[k + 1];
      assert pair == [arg[k], arg[k + 1]];
    }
  }

  /** What an env reference stands for: the variable, else the default, and nothing without a name. */
  lemma ExpandsTo(name: string, getenv: string -> string)
    requires NoSeparator(name)
    ensures ExpandEnv(getenv, name) == if name != "" && getenv(name) != "" then Some(getenv(name)) else None
  {
    hide SeparatorAt;
    var index := IndexOfDefault(name, 0);
    SeparatorChars(name, if index.Some? then index.value else 0);
  }

  lemma DefaultStart(name: string, default: string)
    requires NoSeparator(name)
    ensures IndexOfDefault(name + ":-" + default, 0) == Some(|name|)
  {
    hide SeparatorAt;
    var arg := name + ":-" + default;
    SeparatorChars(arg, |name|);
    forall k: nat | k < |name|
      ensures !SeparatorAt(arg, k)
    {
      SeparatorChars(arg, k);
      assert arg[k] == name[k] && (k + 1 < |name| ==> arg[k + 1] == name[k + 1]);
    }
  }

  lemma ExpandsToDefault(name: string, default: string, getenv: string -> string)
    requires NoSeparator(name)
    ensures ExpandEnv(getenv, name + ":-" + default) ==
      if name == "" then None else if getenv(name) != "" then Some(getenv(name)) else Some(default)
  {
    hide SeparatorAt, IndexOfDefault;
    DefaultStart(name, default);
    var arg := name + ":-" + default;
    assert arg[..|name|] == name && arg[|name| + 2..] == default;
  }

  /** `${env:NAME}` yields the variable, and is an error when that is unset or empty, or has no name. */
  lemma EnvReference(name: string, getenv: string -> string)
    requires Plain(name) && NoSeparator(name)
    ensures Substitute("${env:" + name + "}", "env", EnvExpander(getenv)) ==
      if name != "" && getenv(name) != "" then Outcome.Ok(getenv(name)) else NotExpanded(name)
  {
    hide Substitute;
    ExpandsTo(name, getenv);
    WholePlain(name);
    assert "env" + ":" + name == "env:" + name;
    WholeReference("env", name, EnvExpander(getenv));
    assert "${" + ("env" + ":" + name) + "}" == "${env:" + name + "}";
  }

  /** `${env:NAME:-DEFAULT}` yields the variable when it is set and not empty, else the default, which may be
      empty; without a name it is an error whatever the default. */
  lemma EnvDefault(name: string, default: string, getenv: string -> string)
    requires Plain(name) && NoSeparator(name) && Plain(default)
    ensures Substitute("${env:" + name + ":-" + default + "}", "env", EnvExpander(getenv)) ==
      if name == "" then NotExpanded(":-" + default) else Outcome.Ok(if getenv(name) != "" then getenv(name) else default)
  {
    hide Substitute;
    var arg := name + ":-" + default;
    ExpandsToDefault(name, default, getenv);
    assert Plain(arg);
    WholePlain(arg);
    assert "env" + ":" + arg == "env:" + arg;
    WholeReference("env", arg, EnvExpander(getenv));
    assert "${" + ("env" + ":" + arg) + "}" == "${env:" + name + ":-" + default + "}";
    assert "" + ":-" + default == ":-" + default;
  }

  // ---------------------------------------------------------------- both phases

  /** Whatever the first phase yields for a string is the result as it is exactly when it has neither `$$` nor
      `${`. */
  lemma FirstPhaseVerbatim(s: string, v: string, getenv: string -> string, read: string -> Option<string>)
    requires Substitute(s, "env", EnvExpander(getenv)) == Outcome.Ok(v)
    ensures Resolve(s, getenv, read) == Outcome.Ok(v) <==> !HasPair(v) && !HasOpen(v, 0, |v|)
  {
    hide Unescape, Substituted, Failing, HasPair;
    ResolvedOpensNothing(s, getenv, read);
    if !HasOpen(v, 0, |v|) {
      NoOpenIsTokenless(v);
      TokenlessSubstitute(v, "file", FileExpander(read));
      UnescapeIdentity(v);
    }
  }

  /** A default comes through as it is, under the same condition as a variable. */
  lemma DefaultVerbatim(name: string, default: string, getenv: string -> string, read: string -> Option<string>)
    requires name != "" && Plain(name) && NoSeparator(name) && Plain(default)
    ensures var v := if getenv(name) != "" then getenv(name) else default;
      Resolve("${env:" + name + ":-" + default + "}", getenv, read) == Outcome.Ok(v) <==> !HasPair(v) && !HasOpen(v, 0, |v|)
  {
    hide Substitute, Resolve;
    EnvDefault(name, default, getenv);
    FirstPhaseVerbatim("${env:" + name + ":-" + default + "}", if getenv(name) != "" then getenv(name) else default, getenv, read);
  }

  /** A file that cannot be read is an error that names it. */
  lemma FileMissing(path: string, getenv: string -> string, read: string -> Option<string>)
    requires Plain(path) && read(path).None?
    ensures Resolve("${file:" + path + "}", getenv, read) == NotExpanded(path)
  {
    hide Substitute;
    var body := "file:" + path;
    WholePlain(path);
    FileScheme(path);
    WholeResolves(body, "env", EnvExpander(getenv), "${" + body + "}");
    assert "file" + ":" + path == body;
    WholeReference("file", path, FileExpander(read));
    assert "${" + body + "}" == "${file:" + path + "}";
  }

  /** A reference of no known scheme is left standing, and then an error. */
  lemma UnknownScheme(body: string, getenv: string -> string, read: string -> Option<string>)
    requires Plain(body) && body != "" && !("env:" <= body) && !("file:" <= body)
    ensures Resolve("${" + body + "}", getenv, read) == Unresolved
  {
    hide Substitute;
    assert "env" + ":" == "env:" && "file" + ":" == "file:";
    WholeResolves(body, "env", EnvExpander(getenv), "${" + body + "}");
    WholeResolves(body, "file", FileExpander(read), "${" + body + "}");
    assert OpensAt("${" + body + "}", 0);
  }

  // ---------------------------------------------------------------- unescaping

  function Dollars(n: nat): string {
    seq(n, _ => '$')
  }

  /** A run of n dollars becomes half as many, rounded up, and every other character stays. */
  lemma {:induction false} UnescapeRun(n: nat, rest: string)
    requires rest != "" ==> rest[0] != '$'
    ensures Unescape(Dollars(n) + rest) == Dollars((n + 1) / 2) + (if rest == "" then "" else [rest[0]] + Unescape(rest[1..]))
    decreases n
  {
    if n == 0 {
      assert Dollars(0) + rest == rest;
    } else if n == 1 {
      assert Dollars(1) + rest == "$" + rest;
      assert ("$" + rest)[1..] == rest;
      UnescapeRun(0, rest);
      assert Dollars(0) + rest == rest;
    } else {
      assert (Dollars(n) + rest)[2..] == Dollars(n - 2) + rest;
      UnescapeRun(n - 2, rest);
      HalfRun(n, if rest == "" then "" else [rest[0]] + Unescape(rest[1..]));
    }
  }

  lemma HalfRun(n: nat, tail: string)
    requires n >= 2
    ensures "$" + (Dollars((n - 2 + 1) / 2) + tail) == Dollars((n + 1) / 2) + tail
  {
  }
}
