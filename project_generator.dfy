/** Project designs: the ordered validator, the choice of build file by
    language, the text of `requirements.txt` and `Cargo.toml`, and the
    sequence of filesystem actions that lays a project out under `build/`.
    The filesystem is not modelled; its actions are listed instead. */
module Generator {
  import opened Basics

  datatype BuildScripts = BuildScripts(dev: string, build: string, test: string)

  datatype BuildConfig = BuildConfig(buildTool: string, scripts: BuildScripts)

  datatype DependencyConfig = DependencyConfig(production: map<string, string>, development: map<string, string>)

  datatype ProjectDesign = ProjectDesign(
    name: string,
    description: string,
    projectType: string,
    language: string,
    framework: string,
    technologies: seq<string>,
    dependencies: DependencyConfig,
    buildConfig: BuildConfig,
    directoryStructure: map<string, seq<string>>,
    initializationCommands: seq<string>,
    recommendations: seq<string>)

  /** The I/O variant wraps a foreign error value, kept here as its message. */
  datatype ProjectGenerationError =
    | IoError(message: string)
    | ConfigurationError(message: string)
    | ComponentError(message: string)
    | BuildError(message: string)

  // ---------------------------------------------------------------- trimming

  /** Unicode White_Space, what Rust's `char::is_whitespace` tests. */
  predicate IsWhitespace(c: char)
  {
    var n := c as int;
    (9 <= n <= 13) || n == 32 || n == 0x85 || n == 0xA0 || n == 0x1680
    || (0x2000 <= n <= 0x200A) || n == 0x2028 || n == 0x2029 || n == 0x202F
    || n == 0x205F || n == 0x3000
  }

  /** Every character of `s` is white space (the empty string included). */
  predicate IsBlank(s: string)
  {
    forall i :: 0 <= i < |s| ==> IsWhitespace(s[i])
  }

  /** `trim_start`: drops the leading white space. */
  function TrimStart(s: string): (r: string)
    ensures |r| <= |s| && r == s[|s| - |r|..]
    ensures forall i :: 0 <= i < |s| - |r| ==> IsWhitespace(s[i])
    ensures r == [] || !IsWhitespace(r[0])
  {
    if |s| > 0 && IsWhitespace(s[0]) then TrimStart(s[1..]) else s
  }

  /** `trim_end`: drops the trailing white space. */
  function TrimEnd(s: string): (r: string)
    ensures |r| <= |s| && r == s[..|r|]
    ensures forall i :: |r| <= i < |s| ==> IsWhitespace(s[i])
    ensures r == [] || !IsWhitespace(r[|r| - 1])
  {
    if |s| > 0 && IsWhitespace(s[|s| - 1]) then TrimEnd(s[..|s| - 1]) else s
  }

  /** `trim`: drops white space at both ends. */
  function Trim(s: string): string
  {
    TrimEnd(TrimStart(s))
  }

  /** A string trims to nothing exactly when it is all white space. */
  lemma TrimEmptyIffBlank(s: string)
    ensures Trim(s) == "" <==> IsBlank(s)
  {
    var t := TrimStart(s);
    if Trim(s) == "" {
      // TrimEnd dropped all of `t`, so `t` cannot start with a non-blank
      assert |t| == 0;
    }
  }

  // ---------------------------------------------------------------- validation

  /** `validate`: the name, then the language, must not be blank, and the
      directory structure must not be empty; the first failure is reported. */
  function Validate(d: ProjectDesign): (r: Result<(), ProjectGenerationError>)
    ensures IsBlank(d.name) ==> r == Err(ConfigurationError("Project name cannot be empty"))
    ensures !IsBlank(d.name) && IsBlank(d.language) ==>
              r == Err(ConfigurationError("Language must be specified"))
    ensures !IsBlank(d.name) && !IsBlank(d.language) && |d.directoryStructure| == 0 ==>
              r == Err(ConfigurationError("Directory structure must be defined"))
    ensures r.Ok? <==> !IsBlank(d.name) && !IsBlank(d.language) && |d.directoryStructure| > 0
  {
    TrimEmptyIffBlank(d.name);
    TrimEmptyIffBlank(d.language);
    if Trim(d.name) == "" then
      Err(ConfigurationError("Project name cannot be empty"))
    else if Trim(d.language) == "" then
      Err(ConfigurationError("Language must be specified"))
    else if |d.directoryStructure| == 0 then
      Err(ConfigurationError("Directory structure must be defined"))
    else
      Ok(())
  }

  // ---------------------------------------------------------------- language dispatch

  /** ASCII letters are lowered; no other character lowers to an ASCII letter
      that occurs in the language names below. */
  function LowerChar(c: char): char
  {
    if 'A' <= c <= 'Z' then (c as int + 32) as char else c
  }

  function ToLower(s: string): string
  {
    seq(|s|, i requires 0 <= i < |s| => LowerChar(s[i]))
  }

  /** `a` and `b` have the same length and agree letter by letter, case aside. */
  predicate SameIgnoringCase(a: string, b: string)
  {
    |a| == |b| && forall i :: 0 <= i < |a| ==> LowerChar(a[i]) == LowerChar(b[i])
  }

  datatype BuildFile = CargoToml | PackageJson | RequirementsTxt

  /** The build file `generate_build_config` writes for a language; any
      other language is refused, naming it as given. */
  function BuildFileFor(language: string): (r: Result<BuildFile, ProjectGenerationError>)
    ensures r.Err? ==> r.error == BuildError("Unsupported language: " + language)
  {
    var lower := ToLower(language);
    if lower == "rust" then Ok(CargoToml)
    else if lower == "javascript" || lower == "typescript" then Ok(PackageJson)
    else if lower == "python" then Ok(RequirementsTxt)
    else Err(BuildError("Unsupported language: " + language))
  }

  /** The build file is chosen by the language name without regard to case:
      Cargo.toml for rust, package.json for javascript or typescript,
      requirements.txt for python, and nothing for any other language. */
  lemma BuildFileByName(language: string)
    ensures BuildFileFor(language) == Ok(CargoToml) <==> SameIgnoringCase(language, "rust")
    ensures BuildFileFor(language) == Ok(PackageJson) <==>
              SameIgnoringCase(language, "javascript") || SameIgnoringCase(language, "typescript")
    ensures BuildFileFor(language) == Ok(RequirementsTxt) <==> SameIgnoringCase(language, "python")
  {
    var lower := ToLower(language);
    assert SameIgnoringCase(language, "rust") <==> lower == "rust";
    assert SameIgnoringCase(language, "javascript") <==> lower == "javascript";
    assert SameIgnoringCase(language, "typescript") <==> lower == "typescript";
    assert SameIgnoringCase(language, "python") <==> lower == "python";
  }

  /** The choice of build file does not depend on the case of the language. */
  lemma BuildFileIgnoresCase(a: string, b: string)
    requires SameIgnoringCase(a, b)
    ensures BuildFileFor(a).Ok? ==> BuildFileFor(b) == BuildFileFor(a)
  {
    BuildFileByName(a);
    BuildFileByName(b);
    var words := ["rust", "javascript", "typescript", "python"];
    forall w | w in words
      ensures SameIgnoringCase(a, w) <==> SameIgnoringCase(b, w)
    {
    }
    assert SameIgnoringCase(a, "rust") <==> SameIgnoringCase(b, "rust");
  }

  // ---------------------------------------------------------------- build file text

  /** One `requirements.txt` line. */
  function RequirementLine(name: string, version: string): string
  {
    name + "==" + version + "\n"
  }

  /** One `Cargo.toml` dependency line. */
  function TomlLine(name: string, version: string): string
  {
    name + " = \"" + version + "\"\n"
  }

  /** The lines for the entries of `m`, in the order `order` lists the keys. */
  function Lines(order: seq<string>, m: map<string, string>, line: (string, string) -> string): string
    requires forall k :: k in order ==> k in m
  {
    if |order| == 0 then ""
    else Lines(order[..|order| - 1], m, line) + line(order[|order| - 1], m[order[|order| - 1]])
  }

  /** Every listed entry has its line, whole, in the text. */
  lemma {:induction false} EntryLineAppears(order: seq<string>, m: map<string, string>,
                                            line: (string, string) -> string, i: nat)
    requires forall k :: k in order ==> k in m
    requires i < |order|
    ensures exists before, after :: Lines(order, m, line) == before + line(order[i], m[order[i]]) + after
    decreases |order|
  {
    var init := order[..|order| - 1];
    var last := line(order[|order| - 1], m[order[|order| - 1]]);
    if i == |order| - 1 {
      assert Lines(order, m, line) == Lines(init, m, line) + line(order[i], m[order[i]]) + "";
    } else {
      assert init[i] == order[i];
      EntryLineAppears(init, m, line, i);
      var before, after :| Lines(init, m, line) == before + line(order[i], m[order[i]]) + after;
      assert Lines(order, m, line) == before + line(order[i], m[order[i]]) + (after + last);
    }
  }

  /** A piece of `mid` is a piece of anything `mid` is part of. */
  lemma PieceWithin(pre: string, mid: string, post: string, piece: string)
    requires exists b, a :: mid == b + piece + a
    ensures exists b, a :: pre + mid + post == b + piece + a
  {
    var b, a :| mid == b + piece + a;
    assert pre + mid + post == (pre + b) + piece + (a + post);
  }

  /** Every entry of the map has its line in a text that lists all its keys. */
  lemma EveryEntryAppears(order: seq<string>, m: map<string, string>, line: (string, string) -> string, k: string)
    requires forall x :: x in order <==> x in m
    requires k in m
    ensures exists before, after :: Lines(order, m, line) == before + line(k, m[k]) + after
  {
    var i :| 0 <= i < |order| && order[i] == k;
    EntryLineAppears(order, m, line, i);
  }

  /** `order` lists every key of `m` exactly once. */
  ghost predicate KeyOrder(order: seq<string>, m: map<string, string>)
  {
    Distinct(order) && forall k :: k in order <==> k in m
  }

  /** Writes the entries of `m` one line each, in the map's iteration order. */
  method WriteLines(m: map<string, string>, line: (string, string) -> string)
    returns (text: string, ghost order: seq<string>)
    ensures KeyOrder(order, m)
    ensures text == Lines(order, m, line)
  {
    var keys := Enumerate(m.Keys);
    text := "";
    for i := 0 to |keys|
      invariant text == Lines(keys[..i], m, line)
    {
      assert keys[..i + 1][..i] == keys[..i];
      text := text + line(keys[i], m[keys[i]]);
    }
    assert keys[..|keys|] == keys;
    order := keys;
  }

  /** `generate_requirements_txt`: one `name==version` line per production
      dependency; development dependencies are not written. */
  method RequirementsText(dependencies: DependencyConfig) returns (text: string, ghost order: seq<string>)
    ensures KeyOrder(order, dependencies.production)
    ensures text == Lines(order, dependencies.production, RequirementLine)
    ensures forall k :: k in dependencies.production ==>
              exists before, after :: text == before + RequirementLine(k, dependencies.production[k]) + after
  {
    text, order := WriteLines(dependencies.production, RequirementLine);
    forall k | k in dependencies.production
      ensures exists before, after :: text == before + RequirementLine(k, dependencies.production[k]) + after
    {
      EveryEntryAppears(order, dependencies.production, RequirementLine, k);
    }
  }

  /** The `[package]` table and the blank line after it. */
  function PackageTable(name: string): string
  {
    "[package]\n" + "name = \"" + name + "\"\n" + "version = \"0.1.0\"\n" + "edition = \"2021\"\n" + "\n"
  }

  /** The text of `Cargo.toml` for the given key orders: the dependency table
      always, the development table only when there are development
      dependencies. */
  function CargoText(name: string, dependencies: DependencyConfig, prodOrder: seq<string>, devOrder: seq<string>): string
    requires forall k :: k in prodOrder ==> k in dependencies.production
    requires forall k :: k in devOrder ==> k in dependencies.development
  {
    PackageTable(name)
    + "[dependencies]\n" + Lines(prodOrder, dependencies.production, TomlLine)
    + (if |dependencies.development| == 0 then ""
       else "\n" + "[dev-dependencies]\n" + Lines(devOrder, dependencies.development, TomlLine))
  }

  /** `generate_cargo_toml`: written line by line, in the maps' iteration
      order. */
  method CargoTomlText(name: string, dependencies: DependencyConfig)
    returns (text: string, ghost prodOrder: seq<string>, ghost devOrder: seq<string>)
    ensures KeyOrder(prodOrder, dependencies.production)
    ensures KeyOrder(devOrder, dependencies.development)
    ensures text == CargoText(name, dependencies, prodOrder, devOrder)
  {
    text := PackageTable(name) + "[dependencies]\n";
    var prodLines;
    prodLines, prodOrder := WriteLines(dependencies.production, TomlLine);
    text := text + prodLines;
    devOrder := [];
    if |dependencies.development| != 0 {
      var devLines;
      devLines, devOrder := WriteLines(dependencies.development, TomlLine);
      text := text + ("\n" + "[dev-dependencies]\n" + devLines);
    } else {
      DistinctLength(devOrder, dependencies.development.Keys);
    }
  }

  /** Every production dependency has its `name = "version"` line in
      `Cargo.toml`. */
  lemma CargoListsProduction(name: string, dependencies: DependencyConfig,
                             prodOrder: seq<string>, devOrder: seq<string>, k: string)
    requires forall x :: x in prodOrder <==> x in dependencies.production
    requires forall x :: x in devOrder ==> x in dependencies.development
    requires k in dependencies.production
    ensures exists before, after :: CargoText(name, dependencies, prodOrder, devOrder)
                                      == before + TomlLine(k, dependencies.production[k]) + after
  {
    var devPart := if |dependencies.development| == 0 then ""
                   else "\n" + "[dev-dependencies]\n" + Lines(devOrder, dependencies.development, TomlLine);
    EveryEntryAppears(prodOrder, dependencies.production, TomlLine, k);
    PieceWithin(PackageTable(name) + "[dependencies]\n", Lines(prodOrder, dependencies.production, TomlLine),
                devPart, TomlLine(k, dependencies.production[k]));
  }

  /** Every development dependency has its `name = "version"` line in the
      development table of `Cargo.toml`. */
  lemma CargoListsDevelopment(name: string, dependencies: DependencyConfig,
                              prodOrder: seq<string>, devOrder: seq<string>, k: string)
    requires forall x :: x in prodOrder ==> x in dependencies.production
    requires forall x :: x in devOrder <==> x in dependencies.development
    requires k in dependencies.development
    ensures exists before, after :: CargoText(name, dependencies, prodOrder, devOrder)
                                      == before + TomlLine(k, dependencies.development[k]) + after
  {
    var pre := PackageTable(name) + "[dependencies]\n" + Lines(prodOrder, dependencies.production, TomlLine)
               + ("\n" + "[dev-dependencies]\n");
    EveryEntryAppears(devOrder, dependencies.development, TomlLine, k);
    PieceWithin(pre, Lines(devOrder, dependencies.development, TomlLine), "", TomlLine(k, dependencies.development[k]));
    assert CargoText(name, dependencies, prodOrder, devOrder)
        == pre + Lines(devOrder, dependencies.development, TomlLine) + "";
  }

  /** Without development dependencies `Cargo.toml` ends with the dependency
      table: there is no development table. */
  lemma CargoDevTableOnlyWhenNeeded(name: string, dependencies: DependencyConfig,
                                    prodOrder: seq<string>, devOrder: seq<string>)
    requires forall x :: x in prodOrder ==> x in dependencies.production
    requires forall x :: x in devOrder ==> x in dependencies.development
    ensures |dependencies.development| == 0 ==>
              CargoText(name, dependencies, prodOrder, devOrder)
                == PackageTable(name) + "[dependencies]\n" + Lines(prodOrder, dependencies.production, TomlLine)
    ensures |dependencies.development| > 0 ==>
              exists before :: CargoText(name, dependencies, prodOrder, devOrder)
                == before + "\n[dev-dependencies]\n" + Lines(devOrder, dependencies.development, TomlLine)
  {
    if |dependencies.development| > 0 {
      var before := PackageTable(name) + "[dependencies]\n" + Lines(prodOrder, dependencies.production, TomlLine);
      assert "\n" + "[dev-dependencies]\n" == "\n[dev-dependencies]\n";
      assert CargoText(name, dependencies, prodOrder, devOrder)
          == before + "\n[dev-dependencies]\n" + Lines(devOrder, dependencies.development, TomlLine);
    }
  }

  // ---------------------------------------------------------------- project layout

  /** The filesystem actions the generator performs, in order. Files whose
      text is not modelled (the project README, `package.json`) are written
      with `WriteUnmodelled`. */
  datatype FsAction =
    | RemoveDirAll(path: string)
    | CreateDirAll(path: string)
    | CreateFile(path: string)
    | WriteFile(path: string, content: string)
    | WriteUnmodelled(path: string)

  /** `Path::join` on Unix: an absolute part replaces the base; otherwise a
      separator is inserted unless the base already ends with one. */
  function Join(base: string, part: string): string
  {
    if |part| > 0 && part[0] == '/' then part
    else if |base| > 0 && base[|base| - 1] == '/' then base + part
    else base + "/" + part
  }

  /** The directory a design is generated into. */
  function ProjectRoot(d: ProjectDesign): string
  {
    Join("build", d.name)
  }

  /** The actions before the build file: clear the root if it exists,
      create it, write the README. */
  function Preamble(d: ProjectDesign, rootExists: bool): seq<FsAction>
  {
    (if rootExists then [RemoveDirAll(ProjectRoot(d))] else [])
    + [CreateDirAll(ProjectRoot(d)), WriteUnmodelled(Join(ProjectRoot(d), "README.md"))]
  }

  /** The actions that lay out the components: for each directory, in the
      order `order` lists them, the directory and then its files. */
  function ComponentActions(root: string, order: seq<string>, structure: map<string, seq<string>>): seq<FsAction>
    requires forall c :: c in order ==> c in structure
  {
    if |order| == 0 then []
    else
      var c := order[|order| - 1];
      ComponentActions(root, order[..|order| - 1], structure)
      + [CreateDirAll(Join(root, c))]
      + seq(|structure[c]|, i requires 0 <= i < |structure[c]| => CreateFile(Join(Join(root, c), structure[c][i])))
  }

  /** Every directory of the structure, and every file in it, is created. */
  lemma {:induction false} ComponentsCreated(root: string, order: seq<string>, structure: map<string, seq<string>>, c: string)
    requires forall x :: x in order ==> x in structure
    requires c in order
    ensures CreateDirAll(Join(root, c)) in ComponentActions(root, order, structure)
    ensures forall f :: f in structure[c] ==> CreateFile(Join(Join(root, c), f)) in ComponentActions(root, order, structure)
    decreases |order|
  {
    var last := order[|order| - 1];
    var init := order[..|order| - 1];
    var files := seq(|structure[last]|, i requires 0 <= i < |structure[last]| => CreateFile(Join(Join(root, last), structure[last][i])));
    assert ComponentActions(root, order, structure) == ComponentActions(root, init, structure) + [CreateDirAll(Join(root, last))] + files;
    if c == last {
      forall f | f in structure[c]
        ensures CreateFile(Join(Join(root, c), f)) in files
      {
        var i :| 0 <= i < |structure[c]| && structure[c][i] == f;
        assert files[i] == CreateFile(Join(Join(root, c), f));
      }
    } else {
      assert c in init;
      ComponentsCreated(root, init, structure, c);
    }
  }

  /** Every directory of the structure and every file in it is created, when
      `order` lists every directory. */
  lemma AllComponentsCreated(root: string, order: seq<string>, structure: map<string, seq<string>>, before: seq<FsAction>)
    requires forall x :: x in order <==> x in structure
    ensures forall c :: c in structure ==>
              && CreateDirAll(Join(root, c)) in before + ComponentActions(root, order, structure)
              && forall f :: f in structure[c] ==>
                   CreateFile(Join(Join(root, c), f)) in before + ComponentActions(root, order, structure)
  {
    forall c | c in structure
      ensures CreateDirAll(Join(root, c)) in before + ComponentActions(root, order, structure)
      ensures forall f :: f in structure[c] ==>
                CreateFile(Join(Join(root, c), f)) in before + ComponentActions(root, order, structure)
    {
      ComponentsCreated(root, order, structure, c);
    }
  }

  /** `generate_components`: creates each directory and the empty files it lists. */
  method GenerateComponents(root: string, structure: map<string, seq<string>>)
    returns (actions: seq<FsAction>, ghost order: seq<string>)
    ensures Distinct(order) && forall c :: c in order <==> c in structure
    ensures actions == ComponentActions(root, order, structure)
  {
    var dirs := Enumerate(structure.Keys);
    actions := [];
    for n := 0 to |dirs|
      invariant actions == ComponentActions(root, dirs[..n], structure)
    {
      var c := dirs[n];
      assert dirs[..n + 1][..n] == dirs[..n];
      var dir := Join(root, c);
      actions := actions + [CreateDirAll(dir)];
      var files := structure[c];
      ghost var start := actions;
      for i := 0 to |files|
        invariant actions == start + seq(i, j requires 0 <= j < i => CreateFile(Join(dir, files[j])))
      {
        actions := actions + [CreateFile(Join(dir, files[i]))];
      }
    }
    assert dirs[..|dirs|] == dirs;
    order := dirs;
  }

  /** Every production entry has its `name==version` line in a requirements
      text that lists all production keys. */
  lemma RequirementsListEveryEntry(production: map<string, string>, order: seq<string>)
    requires KeyOrder(order, production)
    ensures forall k :: k in production ==>
              exists before, after :: Lines(order, production, RequirementLine)
                                      == before + RequirementLine(k, production[k]) + after
  {
    forall k | k in production
      ensures exists before, after :: Lines(order, production, RequirementLine)
                                      == before + RequirementLine(k, production[k]) + after
    {
      EveryEntryAppears(order, production, RequirementLine, k);
    }
  }

  /** Every production and every development entry has its TOML line in a
      `Cargo.toml` text that lists all keys of both maps. */
  lemma CargoListsEveryEntry(name: string, dependencies: DependencyConfig, prodOrder: seq<string>, devOrder: seq<string>)
    requires KeyOrder(prodOrder, dependencies.production)
    requires KeyOrder(devOrder, dependencies.development)
    ensures forall k :: k in dependencies.production ==>
              exists before, after :: CargoText(name, dependencies, prodOrder, devOrder)
                                      == before + TomlLine(k, dependencies.production[k]) + after
    ensures forall k :: k in dependencies.development ==>
              exists before, after :: CargoText(name, dependencies, prodOrder, devOrder)
                                      == before + TomlLine(k, dependencies.development[k]) + after
  {
    forall k | k in dependencies.production
      ensures exists before, after :: CargoText(name, dependencies, prodOrder, devOrder)
                                      == before + TomlLine(k, dependencies.production[k]) + after
    {
      CargoListsProduction(name, dependencies, prodOrder, devOrder, k);
    }
    forall k | k in dependencies.development
      ensures exists before, after :: CargoText(name, dependencies, prodOrder, devOrder)
                                      == before + TomlLine(k, dependencies.development[k]) + after
    {
      CargoListsDevelopment(name, dependencies, prodOrder, devOrder, k);
    }
  }

  /** The single write `generate_build_config` performs for a supported
      language, the keys written in the orders given: a `requirements.txt`
      or a `Cargo.toml` holding the line of every dependency it lists, or a
      `package.json`. */
  function BuildAction(d: ProjectDesign, root: string, prodOrder: seq<string>, devOrder: seq<string>): (a: FsAction)
    requires BuildFileFor(d.language).Ok?
    requires BuildFileFor(d.language) != Ok(PackageJson) ==> KeyOrder(prodOrder, d.dependencies.production)
    requires BuildFileFor(d.language) == Ok(CargoToml) ==> KeyOrder(devOrder, d.dependencies.development)
    ensures a.WriteFile? <==> BuildFileFor(d.language) != Ok(PackageJson)
    ensures BuildFileFor(d.language) == Ok(PackageJson) ==> a == WriteUnmodelled(Join(root, "package.json"))
    ensures BuildFileFor(d.language) == Ok(RequirementsTxt) ==>
              && a.path == Join(root, "requirements.txt")
              && forall k :: k in d.dependencies.production ==>
                   exists before, after :: a.content == before + RequirementLine(k, d.dependencies.production[k]) + after
    ensures BuildFileFor(d.language) == Ok(CargoToml) ==>
              && a.path == Join(root, "Cargo.toml")
              && (forall k :: k in d.dependencies.production ==>
                    exists before, after :: a.content == before + TomlLine(k, d.dependencies.production[k]) + after)
              && (forall k :: k in d.dependencies.development ==>
                    exists before, after :: a.content == before + TomlLine(k, d.dependencies.development[k]) + after)
  {
    match BuildFileFor(d.language).value
    case CargoToml =>
      CargoListsEveryEntry(d.name, d.dependencies, prodOrder, devOrder);
      WriteFile(Join(root, "Cargo.toml"), CargoText(d.name, d.dependencies, prodOrder, devOrder))
    case PackageJson => WriteUnmodelled(Join(root, "package.json"))
    case RequirementsTxt =>
      RequirementsListEveryEntry(d.dependencies.production, prodOrder);
      WriteFile(Join(root, "requirements.txt"), Lines(prodOrder, d.dependencies.production, RequirementLine))
  }

  /** `generate_build_config`: the build file for the language, or the
      unsupported-language error (after the README was written). The ghost
      orders say in which order the dependency maps were walked. */
  method GenerateBuildConfig(d: ProjectDesign, root: string)
    returns (r: Result<(), ProjectGenerationError>, actions: seq<FsAction>,
             ghost prodOrder: seq<string>, ghost devOrder: seq<string>)
    ensures BuildFileFor(d.language).Err? ==> r == Err(BuildFileFor(d.language).error) && actions == []
    ensures BuildFileFor(d.language) == Ok(PackageJson) ==>
              r == Ok(()) && actions == [WriteUnmodelled(Join(root, "package.json"))]
    ensures BuildFileFor(d.language) == Ok(RequirementsTxt) ==>
              && r == Ok(())
              && KeyOrder(prodOrder, d.dependencies.production)
              && actions == [WriteFile(Join(root, "requirements.txt"), Lines(prodOrder, d.dependencies.production, RequirementLine))]
    ensures BuildFileFor(d.language) == Ok(CargoToml) ==>
              && r == Ok(())
              && KeyOrder(prodOrder, d.dependencies.production) && KeyOrder(devOrder, d.dependencies.development)
              && actions == [WriteFile(Join(root, "Cargo.toml"), CargoText(d.name, d.dependencies, prodOrder, devOrder))]
    ensures r.Ok? <==> BuildFileFor(d.language).Ok?
    ensures r.Ok? ==>
              && (BuildFileFor(d.language) != Ok(PackageJson) ==> KeyOrder(prodOrder, d.dependencies.production))
              && (BuildFileFor(d.language) == Ok(CargoToml) ==> KeyOrder(devOrder, d.dependencies.development))
              && actions == [BuildAction(d, root, prodOrder, devOrder)]
  {
    prodOrder, devOrder := [], [];
    var file := BuildFileFor(d.language);
    match file {
      case Err(e) =>
        return Err(e), [], prodOrder, devOrder;
      case Ok(CargoToml) =>
        var text;
        text, prodOrder, devOrder := CargoTomlText(d.name, d.dependencies);
        return Ok(()), [WriteFile(Join(root, "Cargo.toml"), text)], prodOrder, devOrder;
      case Ok(PackageJson) =>
        return Ok(()), [WriteUnmodelled(Join(root, "package.json"))], prodOrder, devOrder;
      case Ok(RequirementsTxt) =>
        var text;
        text, prodOrder := RequirementsText(d.dependencies);
        return Ok(()), [WriteFile(Join(root, "requirements.txt"), text)], prodOrder, devOrder;
    }
  }

  lemma PrefixKept(start: seq<FsAction>, mid: seq<FsAction>, tail: seq<FsAction>)
    ensures (start + mid + tail)[..|start|] == start
  {
  }

  /** `generate_project_structure`: validates first (an invalid design
      touches nothing), then clears the project root if `rootExists`,
      recreates it, writes the README, the build file and the components.
      An unsupported language stops right after the README. I/O failures are
      not modelled. */
  method GenerateProjectStructure(d: ProjectDesign, rootExists: bool)
    returns (r: Result<string, ProjectGenerationError>, actions: seq<FsAction>,
             ghost prodOrder: seq<string>, ghost devOrder: seq<string>, ghost dirOrder: seq<string>)
    ensures Validate(d).Err? ==> r == Err(Validate(d).error) && actions == []
    ensures Validate(d).Ok? ==>
              |actions| >= |Preamble(d, rootExists)| && actions[..|Preamble(d, rootExists)|] == Preamble(d, rootExists)
    ensures Validate(d).Ok? && BuildFileFor(d.language).Err? ==>
              r == Err(BuildFileFor(d.language).error) && actions == Preamble(d, rootExists)
    ensures Validate(d).Ok? && BuildFileFor(d.language).Ok? ==>
              && r == Ok(ProjectRoot(d))
              && (BuildFileFor(d.language) != Ok(PackageJson) ==> KeyOrder(prodOrder, d.dependencies.production))
              && (BuildFileFor(d.language) == Ok(CargoToml) ==> KeyOrder(devOrder, d.dependencies.development))
              && Distinct(dirOrder) && (forall c :: c in dirOrder <==> c in d.directoryStructure)
              && actions == Preamble(d, rootExists) + [BuildAction(d, ProjectRoot(d), prodOrder, devOrder)]
                            + ComponentActions(ProjectRoot(d), dirOrder, d.directoryStructure)
    ensures Validate(d).Ok? && BuildFileFor(d.language).Ok? ==>
              forall c :: c in d.directoryStructure ==>
                && CreateDirAll(Join(ProjectRoot(d), c)) in actions
                && forall f :: f in d.directoryStructure[c] ==> CreateFile(Join(Join(ProjectRoot(d), c), f)) in actions
  {
    prodOrder, devOrder, dirOrder := [], [], [];
    var valid := Validate(d);
    if valid.Err? {
      return Err(valid.error), [], prodOrder, devOrder, dirOrder;
    }
    var root := ProjectRoot(d);
    var start := Preamble(d, rootExists);
    var built, buildActions;
    built, buildActions, prodOrder, devOrder := GenerateBuildConfig(d, root);
    if built.Err? {
      PrefixKept(start, buildActions, []);
      assert start + buildActions + [] == start;
      return Err(built.error), start, prodOrder, devOrder, dirOrder;
    }
    var componentActions;
    componentActions, dirOrder := GenerateComponents(root, d.directoryStructure);
    AllComponentsCreated(root, dirOrder, d.directoryStructure, start + buildActions);
    PrefixKept(start, buildActions, componentActions);
    return Ok(root), start + buildActions + componentActions, prodOrder, devOrder, dirOrder;
  }
}
