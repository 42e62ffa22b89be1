/**
 Checking that an installed package's zod artifact is self-contained: every file reachable
 from it by relative imports must be there, be small enough, parse, and not import zod.
 */
module ImportClosure {
  import opened Wrappers
  import opened Reachability

  // What the check asks of the file system and of the parser. `inside` tells whether a path
  // lies below the distribution root, `candidates` lists the paths an import may mean.
  datatype Package = Package(
    entry: string,
    exists_: string -> bool,
    sound: string -> bool,
    parse: string -> Result<seq<string>, string>,
    inside: string -> bool,
    candidates: (string, string) -> seq<string>)

  datatype Fault =
    | MissingArtifact
    | InvalidArtifact(path: string)
    | Unparsable(path: string, message: string)
    | ImportsZod(path: string, specifier: string)

  predicate IsZod(specifier: string) {
    specifier == "zod" || "zod/" <= specifier
  }

  function FirstInstalled(pkg: Package, candidates: seq<string>): Option<string> {
    if candidates == [] then None
    else if pkg.inside(candidates[0]) && pkg.exists_(candidates[0]) then Some(candidates[0])
    else FirstInstalled(pkg, candidates[1..])
  }

  // Only relative imports are followed, to the first candidate installed below the root.
  function Resolve(pkg: Package, importer: string, specifier: string): Option<string> {
    if "." <= specifier then FirstInstalled(pkg, pkg.candidates(importer, specifier)) else None
  }

  function ResolveAll(pkg: Package, importer: string, specifiers: seq<string>): seq<string> {
    if specifiers == [] then []
    else
      ResolveAll(pkg, importer, specifiers[..|specifiers| - 1])
      + match Resolve(pkg, importer, specifiers[|specifiers| - 1]) case Some(path) => [path] case None => []
  }

  function Targets(pkg: Package, path: string): seq<string> {
    match pkg.parse(path)
    case Err(_) => []
    case Ok(specifiers) => ResolveAll(pkg, path, specifiers)
  }

  // The import graph.
  function Imports(pkg: Package): string -> seq<string> {
    (path: string) => Targets(pkg, path)
  }

  function FirstZod(specifiers: seq<string>): Option<string> {
    if specifiers == [] then None
    else if IsZod(specifiers[0]) then Some(specifiers[0])
    else FirstZod(specifiers[1..])
  }

  // What is wrong with one file, in the order in which the check looks.
  function FaultOf(pkg: Package, path: string): Option<Fault> {
    if !pkg.exists_(path) then Some(MissingArtifact)
    else if !pkg.sound(path) then Some(InvalidArtifact(path))
    else
      match pkg.parse(path)
      case Err(message) => Some(Unparsable(path, message))
      case Ok(specifiers) =>
        match FirstZod(specifiers) case Some(zod) => Some(ImportsZod(path, zod)) case None => None
  }

  method ResolveInstalledDistRelativeImport(pkg: Package, importer: string, specifier: string)
    returns (resolved: Option<string>)
    ensures resolved == Resolve(pkg, importer, specifier)
    ensures resolved.Some? ==> pkg.inside(resolved.value) && pkg.exists_(resolved.value)
  {
    if !("." <= specifier) {
      return None;
    }
    var candidates := pkg.candidates(importer, specifier);
    for i := 0 to |candidates|
      invariant FirstInstalled(pkg, candidates[i..]) == FirstInstalled(pkg, candidates)
    {
      assert candidates[i..][1..] == candidates[i + 1..];
      if !pkg.inside(candidates[i]) || !pkg.exists_(candidates[i]) {
        continue;
      }
      return Some(candidates[i]);
    }
    return None;
  }

  // The specifier loop of one file: a zod import ends the check, other imports are followed.
  method FollowImports(pkg: Package, path: string, specifiers: seq<string>)
    returns (zod: Option<string>, resolved: seq<string>)
    ensures zod == FirstZod(specifiers)
    ensures zod.None? ==> resolved == ResolveAll(pkg, path, specifiers)
  {
    resolved := [];
    for i := 0 to |specifiers|
      invariant FirstZod(specifiers[i..]) == FirstZod(specifiers)
      invariant resolved == ResolveAll(pkg, path, specifiers[..i])
    {
      assert specifiers[i..][1..] == specifiers[i + 1..];
      assert specifiers[..i + 1][..i] == specifiers[..i];
      var specifier := specifiers[i];
      if IsZod(specifier) {
        return Some(specifier), resolved;
      }
      var found := ResolveInstalledDistRelativeImport(pkg, path, specifier);
      if found.Some? {
        resolved := resolved + [found.value];
      }
    }
    assert specifiers[..|specifiers|] == specifiers;
    return None, resolved;
  }

  // A candidate is taken exactly when one is installed below the root, and then the first.
  lemma {:induction false} FirstInstalledIs(pkg: Package, candidates: seq<string>) returns (i: nat)
    ensures i <= |candidates| && forall j | 0 <= j < i :: !(pkg.inside(candidates[j]) && pkg.exists_(candidates[j]))
    ensures i == |candidates| ==> FirstInstalled(pkg, candidates).None?
    ensures i < |candidates| ==>
              && pkg.inside(candidates[i]) && pkg.exists_(candidates[i])
              && FirstInstalled(pkg, candidates) == Some(candidates[i])
  {
    i := 0;
    if candidates != [] && !(pkg.inside(candidates[0]) && pkg.exists_(candidates[0])) {
      var k := FirstInstalledIs(pkg, candidates[1..]);
      i := k + 1;
    }
  }

  // ----- the import graph -----

  predicate Installed(pkg: Package, path: string) {
    pkg.inside(path) && pkg.exists_(path)
  }

  // A relative import of `from` whose first installed candidate is `to`.
  ghost predicate Leads(pkg: Package, from: string, specifier: string, to: string) {
    && "." <= specifier
    && exists i :: IsFirst(pkg, pkg.candidates(from, specifier), i) && pkg.candidates(from, specifier)[i] == to
  }

  predicate IsFirst(pkg: Package, candidates: seq<string>, i: int) {
    && 0 <= i < |candidates| && Installed(pkg, candidates[i])
    && forall j | 0 <= j < i :: !Installed(pkg, candidates[j])
  }

  // `from` parses, and one of its imports leads to `to`.
  ghost predicate Links(pkg: Package, from: string, to: string) {
    pkg.parse(from).Ok? && exists specifier :: specifier in pkg.parse(from).value && Leads(pkg, from, specifier, to)
  }

  lemma ResolveIs(pkg: Package, from: string, specifier: string, to: string)
    ensures Resolve(pkg, from, specifier) == Some(to) <==> Leads(pkg, from, specifier, to)
  {
    var candidates := pkg.candidates(from, specifier);
    var i := FirstInstalledIs(pkg, candidates);
    if "." <= specifier && i < |candidates| {
      assert IsFirst(pkg, candidates, i);
      assert forall k | IsFirst(pkg, candidates, k) :: k == i;
    }
  }

  lemma {:induction false} ResolveAllIs(pkg: Package, from: string, specifiers: seq<string>, to: string)
    ensures to in ResolveAll(pkg, from, specifiers)
       <==> exists specifier :: specifier in specifiers && Leads(pkg, from, specifier, to)
    decreases |specifiers|
  {
    if specifiers != [] {
      var front, last := specifiers[..|specifiers| - 1], specifiers[|specifiers| - 1];
      assert specifiers == front + [last];
      ResolveAllIs(pkg, from, front, to);
      ResolveIs(pkg, from, last, to);
    }
  }

  // The graph that is walked has exactly these links.
  lemma ImportsAre(pkg: Package, from: string, to: string)
    ensures to in Imports(pkg)(from) <==> Links(pkg, from, to)
  {
    if pkg.parse(from).Ok? {
      ResolveAllIs(pkg, from, pkg.parse(from).value, to);
    }
  }

  lemma GraphIsInstalled(pkg: Package)
    ensures forall from: string, to: string | to in Imports(pkg)(from) :: Installed(pkg, to)
  {
    forall from: string, to: string | to in Imports(pkg)(from) ensures Installed(pkg, to) {
      ImportsAre(pkg, from, to);
      var specifier :| specifier in pkg.parse(from).value && Leads(pkg, from, specifier, to);
    }
  }

  // Some chain of links from the entry ends at this path.
  ghost predicate Linked(pkg: Package, path: string) {
    exists chain: seq<string> :: IsChain(pkg, chain) && chain[|chain| - 1] == path
  }

  ghost predicate IsChain(pkg: Package, chain: seq<string>) {
    chain != [] && chain[0] == pkg.entry && forall i | 0 <= i < |chain| - 1 :: Links(pkg, chain[i], chain[i + 1])
  }

  lemma ReachableIsLinked(pkg: Package, path: string)
    ensures Reachable(Imports(pkg), pkg.entry, path) <==> Linked(pkg, path)
  {
    if Reachable(Imports(pkg), pkg.entry, path) {
      var chain :| IsPath(Imports(pkg), chain) && chain[0] == pkg.entry && chain[|chain| - 1] == path;
      forall i | 0 <= i < |chain| - 1 ensures Links(pkg, chain[i], chain[i + 1]) {
        ImportsAre(pkg, chain[i], chain[i + 1]);
      }
      assert IsChain(pkg, chain);
    }
    if Linked(pkg, path) {
      var chain :| IsChain(pkg, chain) && chain[|chain| - 1] == path;
      forall i | 0 <= i < |chain| - 1 ensures chain[i + 1] in Imports(pkg)(chain[i]) {
        ImportsAre(pkg, chain[i], chain[i + 1]);
      }
      assert IsPath(Imports(pkg), chain);
    }
  }

  // ----- faults -----

  // There, sound, parsable, and importing neither zod nor anything below it.
  ghost predicate SelfContained(pkg: Package, path: string) {
    && pkg.exists_(path) && pkg.sound(path) && pkg.parse(path).Ok?
    && NoZod(pkg.parse(path).value)
  }

  predicate NoZod(specifiers: seq<string>) {
    forall specifier | specifier in specifiers :: specifier != "zod" && !("zod/" <= specifier)
  }

  // The fault of a file is the first that applies.
  ghost predicate IsFault(pkg: Package, path: string, fault: Fault) {
    match fault
    case MissingArtifact => !pkg.exists_(path)
    case InvalidArtifact(at) => at == path && pkg.exists_(path) && !pkg.sound(path)
    case Unparsable(at, message) =>
      at == path && pkg.exists_(path) && pkg.sound(path) && pkg.parse(path) == Err(message)
    case ImportsZod(at, specifier) =>
      && at == path && pkg.exists_(path) && pkg.sound(path) && pkg.parse(path).Ok?
      && FirstOfZod(pkg.parse(path).value, specifier)
  }

  ghost predicate FirstOfZod(specifiers: seq<string>, specifier: string) {
    exists i ::
      && 0 <= i < |specifiers| && specifiers[i] == specifier && (specifier == "zod" || "zod/" <= specifier)
      && forall j | 0 <= j < i :: specifiers[j] != "zod" && !("zod/" <= specifiers[j])
  }

  lemma {:induction false} FirstZodAt(specifiers: seq<string>) returns (i: nat)
    ensures i <= |specifiers| && forall j | 0 <= j < i :: !IsZod(specifiers[j])
    ensures i == |specifiers| ==> FirstZod(specifiers).None?
    ensures i < |specifiers| ==> IsZod(specifiers[i]) && FirstZod(specifiers) == Some(specifiers[i])
  {
    i := 0;
    if specifiers != [] && !IsZod(specifiers[0]) {
      var k := FirstZodAt(specifiers[1..]);
      i := k + 1;
    }
  }

  lemma FirstZodIs(specifiers: seq<string>)
    ensures FirstZod(specifiers).None? <==> NoZod(specifiers)
    ensures FirstZod(specifiers).Some? ==> FirstOfZod(specifiers, FirstZod(specifiers).value)
  {
    var i := FirstZodAt(specifiers);
    if i < |specifiers| {
      assert IsZod(specifiers[i]) && specifiers[i] in specifiers;
    } else {
      forall specifier | specifier in specifiers ensures !IsZod(specifier) {
        var j :| 0 <= j < |specifiers| && specifiers[j] == specifier;
      }
    }
  }

  lemma FaultIs(pkg: Package, path: string)
    ensures FaultOf(pkg, path).None? <==> SelfContained(pkg, path)
    ensures FaultOf(pkg, path).Some? ==> IsFault(pkg, path, FaultOf(pkg, path).value)
  {
    if pkg.parse(path).Ok? {
      FirstZodIs(pkg.parse(path).value);
    }
  }

  // Checking one file: its fault, or where its imports lead.
  method CheckFile(pkg: Package, path: string) returns (fault: Option<Fault>, imports: seq<string>)
    ensures fault == FaultOf(pkg, path)
    ensures fault.None? ==> imports == Targets(pkg, path)
  {
    if !pkg.exists_(path) {
      return Some(MissingArtifact), [];
    }
    if !pkg.sound(path) {
      return Some(InvalidArtifact(path)), [];
    }
    match pkg.parse(path) {
      case Err(message) =>
        return Some(Unparsable(path, message)), [];
      case Ok(specifiers) =>
        var zod;
        zod, imports := FollowImports(pkg, path, specifiers);
        fault := if zod.Some? then Some(ImportsZod(path, zod.value)) else None;
    }
  }

  // The worklist. It visits reachable files only; without an error it has visited them all
  // and found no fault, and an error is the fault of a reachable file.
  method WalkImports(pkg: Package, ghost next: string -> seq<string>, ghost files: set<string>)
    returns (error: Option<Fault>, ghost visited: set<string>)
    requires forall path: string :: next(path) == Targets(pkg, path)
    requires pkg.entry in files && forall from, to | to in next(from) :: to in files
    ensures forall path | path in visited :: Reachable(next, pkg.entry, path)
    ensures error.None? ==> forall path | Reachable(next, pkg.entry, path) :: path in visited
    ensures error.None? <==> forall path | Reachable(next, pkg.entry, path) :: FaultOf(pkg, path).None?
    ensures error.Some? ==> exists path :: Reachable(next, pkg.entry, path) && FaultOf(pkg, path) == error
  {
    var pending, marked: set<string> := [pkg.entry], {};
    WalkStarts(next, pkg.entry, {});
    while |pending| > 0
      invariant marked <= files && forall path | path in pending :: path in files
      invariant Walk(next, pkg.entry, {}, marked, pending)
      invariant forall path | path in marked :: FaultOf(pkg, path).None?
      decreases |files - marked|, |pending|
    {
      var filePath := pending[|pending| - 1];
      ghost var before := pending;
      pending := pending[..|pending| - 1];
      assert before == pending + [filePath];
      if filePath in marked {
        WalkSkips(next, pkg.entry, {}, marked, pending, filePath);
        continue;
      }
      assert filePath in before;
      FewerLeft(files, marked, filePath);
      var fault, imports := CheckFile(pkg, filePath);
      if fault.Some? {
        return fault, marked + {filePath};
      }
      WalkVisits(next, pkg.entry, {}, marked, pending, filePath, imports);
      marked := marked + {filePath};
      pending := pending + imports;
    }
    WalkEnds(next, pkg.entry, {}, marked);
    return None, marked;
  }

  // `files` are the files below the distribution root; that they are finitely many is all the
  // check needs to terminate, cyclic imports or not.
  ghost predicate InstalledAre(pkg: Package, files: set<string>) {
    forall path | pkg.inside(path) && pkg.exists_(path) :: path in files
  }

  // No error exactly when every file linked from the entry is self-contained; an error is the
  // fault of a linked file; nothing outside the distribution root is looked at.
  method CollectInstalledPluginSdkZodArtifactErrors(pkg: Package, ghost files: set<string>)
    returns (errors: seq<Fault>, ghost visited: set<string>)
    requires InstalledAre(pkg, files) && pkg.inside(pkg.entry)
    ensures errors == [] <==> forall path | Linked(pkg, path) :: SelfContained(pkg, path)
    ensures errors != [] ==> |errors| == 1 && exists path :: Linked(pkg, path) && IsFault(pkg, path, errors[0])
    ensures forall path | path in visited :: pkg.inside(path) && Linked(pkg, path)
  {
    GraphIsInstalled(pkg);
    ghost var next := Imports(pkg);
    forall from, to | to in next(from) ensures to in files {
      assert Installed(pkg, to);
    }
    var error;
    error, visited := WalkImports(pkg, next, files + {pkg.entry});
    errors := if error.Some? then [error.value] else [];
    forall path ensures Reachable(Imports(pkg), pkg.entry, path) <==> Linked(pkg, path) {
      ReachableIsLinked(pkg, path);
    }
    forall path ensures FaultOf(pkg, path).None? <==> SelfContained(pkg, path) {
      FaultIs(pkg, path);
    }
    if error.Some? {
      ErrorIsFault(pkg, error.value);
    }
    forall path | path in visited ensures pkg.inside(path) {
      ReachableIsInstalled(pkg, path);
    }
  }

  lemma ErrorIsFault(pkg: Package, error: Fault)
    requires exists path :: Reachable(Imports(pkg), pkg.entry, path) && FaultOf(pkg, path) == Some(error)
    ensures exists path :: Linked(pkg, path) && IsFault(pkg, path, error)
  {
    var path :| Reachable(Imports(pkg), pkg.entry, path) && FaultOf(pkg, path) == Some(error);
    ReachableIsLinked(pkg, path);
    FaultIs(pkg, path);
  }

  // Beyond the entry every reachable file is installed below the root, so only the entry can
  // be reported missing.
  lemma ReachableIsInstalled(pkg: Package, path: string)
    requires Reachable(Imports(pkg), pkg.entry, path)
    ensures path == pkg.entry || Installed(pkg, path)
    ensures FaultOf(pkg, path) == Some(MissingArtifact) ==> path == pkg.entry
  {
    var p :| IsPath(Imports(pkg), p) && p[0] == pkg.entry && p[|p| - 1] == path;
    if |p| > 1 {
      GraphIsInstalled(pkg);
      assert p[|p| - 2 + 1] in Imports(pkg)(p[|p| - 2]);
    }
  }
}
