/** The build order of a solution (Cm.Ast/Solution.cpp): `Traversal.Visit` is the recursive search,
    `Solution.CreateBuildOrder` runs it from every project and maps names to projects.  Any graph
    of dependencies is possible: cycles, repeated dependencies, undeclared names. */
module BuildOrder {
  import opened Graphs

  datatype Project = Project(name: string, filePath: string)

  datatype Declaration =
    | ProjectFile(filePath: string)
    | ActiveProject(projectName: string)
    | ProjectDependency(project: string, dependsOn: seq<string>)

  type DependencyMap = map<string, seq<string>>

  datatype Error =
    | Circular(name: string)
    | NotInDependencies(name: string)
    | NotInSolution(name: string)
    | DuplicateProjectFile(path: string)

  datatype Result<+T> = Ok(value: T) | Err(error: Error)

  // ---------------------------------------------------------------- the dependency graph

  ghost predicate Edge(deps: DependencyMap, a: string, b: string) {
    a in deps && b in deps[a]
  }

  ghost function Edges(deps: DependencyMap): (string, string) -> bool {
    (a, b) => Edge(deps, a, b)
  }

  /** `a` depends on `b` through at least one edge. */
  ghost predicate DependsOn(deps: DependencyMap, a: string, b: string) {
    ReachableBeyond(Edges(deps), a, b)
  }

  ghost predicate ReachableFromAny(deps: DependencyMap, roots: seq<string>, b: string) {
    exists r :: r in roots && Reachable(Edges(deps), r, b)
  }

  // ---------------------------------------------------------------- orders of names

  ghost predicate NoDuplicates<T>(s: seq<T>) {
    forall i, j :: 0 <= i < j < |s| ==> s[i] != s[j]
  }

  /** Every name is declared, and all its direct dependencies occur strictly before it. */
  ghost predicate DependenciesFirst(deps: DependencyMap, order: seq<string>) {
    forall i :: 0 <= i < |order| ==>
      order[i] in deps && forall b :: b in deps[order[i]] ==> b in order[..i]
  }

  lemma DependenciesFirstAppend(deps: DependencyMap, order: seq<string>, name: string)
    requires DependenciesFirst(deps, order) && name in deps
    requires forall b :: b in deps[name] ==> b in order
    ensures DependenciesFirst(deps, order + [name])
  {
    var longer := order + [name];
    forall i | 0 <= i < |longer|
      ensures longer[i] in deps && forall b :: b in deps[longer[i]] ==> b in longer[..i]
    {
      assert longer[..i] == order[..i];
    }
  }

  /** An order without duplicates that puts direct dependencies first also puts the
      transitive ones first. */
  lemma {:induction false} TransitiveDependenciesFirst(deps: DependencyMap, order: seq<string>,
                                                       walk: seq<string>, i: nat)
    requires DependenciesFirst(deps, order)
    requires i < |order| && IsWalk(Edges(deps), walk) && walk[0] == order[i] && |walk| > 1
    ensures walk[|walk| - 1] in order[..i]
  {
    assert Edge(deps, walk[0], walk[1]);
    var j :| 0 <= j < i && order[j] == walk[1];
    if |walk| > 2 {
      WalkSuffix(Edges(deps), walk, 1);
      TransitiveDependenciesFirst(deps, order, walk[1..], j);
      assert order[..j] <= order[..i];
    }
  }

  lemma OrderedNamesAcyclic(deps: DependencyMap, order: seq<string>, a: string)
    requires DependenciesFirst(deps, order) && NoDuplicates(order) && a in order
    ensures !OnCycle(Edges(deps), a)
  {
    if OnCycle(Edges(deps), a) {
      var walk :| WalkFromTo(Edges(deps), walk, a, a) && |walk| > 1;
      var i :| 0 <= i < |order| && order[i] == a;
      TransitiveDependenciesFirst(deps, order, walk, i);
    }
  }

  /** The names of such an order are closed under reachability. */
  lemma {:induction false} OrderClosed(deps: DependencyMap, order: seq<string>, walk: seq<string>)
    requires DependenciesFirst(deps, order)
    requires IsWalk(Edges(deps), walk) && walk[0] in order
    ensures walk[|walk| - 1] in order
  {
    if |walk| > 1 {
      var i :| 0 <= i < |order| && order[i] == walk[0];
      TransitiveDependenciesFirst(deps, order, walk, i);
    }
  }

  // ---------------------------------------------------------------- the depth-first search

  /** The call path of `Visit`: distinct names linked by dependency edges, from a root. */
  ghost predicate CallPath(deps: DependencyMap, path: seq<string>, tempVisit: set<string>) {
    && (path != [] ==> IsWalk(Edges(deps), path))
    && NoDuplicates(path)
    && (forall n :: n in tempVisit <==> n in path)
  }

  /** What an error of `Visit` says about the graph: a circular dependency is a real cycle,
      a missing one is a real gap, and both are reachable from the root of the search. */
  ghost predicate ErrorWitness(deps: DependencyMap, root: string, error: Error) {
    match error
    case Circular(n) => Reachable(Edges(deps), root, n) && OnCycle(Edges(deps), n)
    case NotInDependencies(n) => Reachable(Edges(deps), root, n) && n !in deps
    case _ => false
  }

  class Traversal {
    var order: seq<string>
    var visited: set<string>
    var tempVisit: set<string>

    ghost predicate Valid(deps: DependencyMap)
      reads this
    {
      && NoDuplicates(order)
      && DependenciesFirst(deps, order)
      && (forall n :: n in visited <==> n in order)
      && visited !! tempVisit
    }

    constructor ()
      ensures order == [] && visited == {} && tempVisit == {}
    {
      order, visited, tempVisit := [], {}, {};
    }

    /** On success everything reachable from `name` has been ordered, nothing else was
        added, and `tempVisit` is back to what it was.  The recursion ends because each
        nested call has one declared name more in `tempVisit`. */
    method Visit(name: string, deps: DependencyMap, ghost path: seq<string>, ghost root: string)
      returns (r: Result<()>)
      requires Valid(deps)
      requires CallPath(deps, path, tempVisit)
      requires if path == [] then root == name else path[0] == root && Edge(deps, path[|path| - 1], name)
      modifies this
      ensures r.Err? ==> ErrorWitness(deps, root, r.error)
      ensures r.Ok? ==> Valid(deps) && tempVisit == old(tempVisit)
      ensures r.Ok? ==> old(order) <= order && name in order
      ensures r.Ok? ==> forall n :: n in order ==> n in old(order) || Reachable(Edges(deps), name, n)
      decreases deps.Keys - tempVisit, 1
    {
      RootReaches(deps, path, root, name);
      if name !in tempVisit {
        if name !in visited {
          tempVisit := tempVisit + {name};
          if name in deps {
            ghost var path' := path + [name];
            ghost var before := order;
            assert IsWalk(Edges(deps), path');
            ReachableSelf(Edges(deps), name);
            var dependencies := deps[name];
            for i := 0 to |dependencies|
              invariant Valid(deps)
              invariant tempVisit == old(tempVisit) + {name}
              invariant before <= order
              invariant forall k :: 0 <= k < i ==> dependencies[k] in order
              invariant forall n :: n in order ==> n in before || Reachable(Edges(deps), name, n)
            {
              assert Edge(deps, name, dependencies[i]);
              ghost var o := order;
              r := Visit(dependencies[i], deps, path', root);
              if r.Err? { return; }
              forall n | n in order && n !in before ensures Reachable(Edges(deps), name, n) {
                if n !in o {
                  ReachablePrepend(Edges(deps), name, dependencies[i], n);
                }
              }
            }
            DependenciesFirstAppend(deps, order, name);
            tempVisit := tempVisit - {name};
            visited := visited + {name};
            order := order + [name];
            r := Ok(());
          } else {
            r := Err(NotInDependencies(name));
          }
        } else {
          r := Ok(());
        }
      } else {
        ClosedWalkIsCycle(Edges(deps), path, name);
        r := Err(Circular(name));
      }
    }
  }

  lemma RootReaches(deps: DependencyMap, path: seq<string>, root: string, name: string)
    requires path != [] ==> IsWalk(Edges(deps), path)
    requires if path == [] then root == name else path[0] == root && Edge(deps, path[|path| - 1], name)
    ensures Reachable(Edges(deps), root, name)
  {
    if path == [] {
      ReachableSelf(Edges(deps), root);
    } else {
      assert WalkFromTo(Edges(deps), path, root, path[|path| - 1]);
      ReachableAppend(Edges(deps), root, path[|path| - 1], name);
    }
  }

  // ---------------------------------------------------------------- the solution

  function Names(projects: seq<Project>): (names: seq<string>)
    ensures |names| == |projects|
    ensures forall i :: 0 <= i < |projects| ==> names[i] == projects[i].name
  {
    seq(|projects|, i requires 0 <= i < |projects| => projects[i].name)
  }

  /** `p` is the project that the name map holds for its name: the last one so named. */
  ghost predicate LastNamed(projects: seq<Project>, p: Project) {
    exists i :: 0 <= i < |projects| && projects[i] == p &&
                forall j :: i < j < |projects| ==> projects[j].name != p.name
  }

  /** The condition under which a solution can be ordered: every name reachable from a
      project is declared, names a project and lies on no cycle. */
  ghost predicate Orderable(deps: DependencyMap, projects: seq<Project>) {
    forall n :: ReachableFromAny(deps, Names(projects), n) ==>
      n in deps && n in Names(projects) && !OnCycle(Edges(deps), n)
  }

  /** What the source promises of a build order. */
  ghost predicate IsBuildOrder(deps: DependencyMap, projects: seq<Project>, buildOrder: seq<Project>) {
    var names := Names(buildOrder);
    && NoDuplicates(names)
    && (forall n :: n in names <==> ReachableFromAny(deps, Names(projects), n))
    && (forall p :: p in buildOrder ==> LastNamed(projects, p))
    && (forall i, n :: 0 <= i < |names| && DependsOn(deps, names[i], n) ==> n in names[..i])
  }

  /** Said of the projects themselves: every project of the solution is built, or the last of its
      namesakes is, only projects of the solution are, none twice, and each only after a project
      for every name that is declared as its dependency. */
  ghost predicate DependenciesBuiltFirst(deps: DependencyMap, projects: seq<Project>, built: seq<Project>) {
    && (forall p :: p in projects ==> NamedIn(built, p.name))
    && (forall q :: q in built ==> q in projects)
    && (forall i, j :: 0 <= i < j < |built| ==> built[i].name != built[j].name)
    && (forall i :: 0 <= i < |built| ==> DependenciesIn(deps, built[i].name, built[..i]))
  }

  ghost predicate NamedIn(projects: seq<Project>, name: string) {
    exists k :: 0 <= k < |projects| && projects[k].name == name
  }

  ghost predicate DependenciesIn(deps: DependencyMap, name: string, built: seq<Project>) {
    name in deps && forall d :: d in deps[name] ==> NamedIn(built, d)
  }

  lemma BuiltInOrder(deps: DependencyMap, projects: seq<Project>, built: seq<Project>)
    requires IsBuildOrder(deps, projects, built) && Orderable(deps, projects)
    ensures DependenciesBuiltFirst(deps, projects, built)
  {
    var names := Names(built);
    forall p | p in projects ensures NamedIn(built, p.name) {
      var k :| 0 <= k < |projects| && projects[k] == p;
      assert Names(projects)[k] in Names(projects);
      ReachableSelf(Edges(deps), p.name);
      assert ReachableFromAny(deps, Names(projects), p.name);
      var i :| 0 <= i < |names| && names[i] == p.name;
      assert built[i] in built;
    }
    forall i, j | 0 <= i < j < |built| ensures built[i].name != built[j].name {
      assert names[i] != names[j];
    }
    forall i | 0 <= i < |built| ensures DependenciesIn(deps, built[i].name, built[..i]) {
      DependenciesDone(deps, projects, built, i);
    }
  }

  lemma DependenciesDone(deps: DependencyMap, projects: seq<Project>, built: seq<Project>, i: nat)
    requires IsBuildOrder(deps, projects, built) && Orderable(deps, projects) && i < |built|
    ensures DependenciesIn(deps, built[i].name, built[..i])
  {
    var names := Names(built);
    assert names[i] in names;
    forall d | d in deps[names[i]] ensures NamedIn(built[..i], d) {
      assert Edges(deps)(names[i], d);
      ReachableSelf(Edges(deps), names[i]);
      ReachableAppend(Edges(deps), names[i], names[i], d);
      assert DependsOn(deps, names[i], d);
      var j :| 0 <= j < i && names[..i][j] == d;
      assert built[..i][j].name == d;
    }
  }

  /** What an error of `CreateBuildOrder` says: the first kind is a real cycle, the second an
      undeclared name, the third a declared name without a project; all reachable. */
  ghost predicate BuildErrorWitness(deps: DependencyMap, projects: seq<Project>, error: Error) {
    match error
    case Circular(n) => ReachableFromAny(deps, Names(projects), n) && OnCycle(Edges(deps), n)
    case NotInDependencies(n) => ReachableFromAny(deps, Names(projects), n) && n !in deps
    case NotInSolution(n) => ReachableFromAny(deps, Names(projects), n) && n !in Names(projects)
    case DuplicateProjectFile(_) => false
  }

  /** The dependency map after the declarations: the last declaration of a name wins. */
  function DependencyMapOf(start: DependencyMap, declarations: seq<Declaration>): (deps: DependencyMap)
  {
    if declarations == [] then start
    else
      var prefix := DependencyMapOf(start, declarations[..|declarations| - 1]);
      match declarations[|declarations| - 1]
      case ProjectDependency(p, ds) => prefix[p := ds]
      case _ => prefix
  }

  function FilePathsOf(declarations: seq<Declaration>): seq<string> {
    if declarations == [] then []
    else
      FilePathsOf(declarations[..|declarations| - 1]) +
      match declarations[|declarations| - 1]
      case ProjectFile(f) => [f]
      case _ => []
  }

  /** No two declarations give the same project file, and none gives one of `start`. */
  ghost predicate FilesDistinct(start: seq<string>, declarations: seq<Declaration>) {
    && (forall i, j, f :: 0 <= i < j < |declarations| && declarations[i] == ProjectFile(f) ==> declarations[j] != ProjectFile(f))
    && (forall i, f :: 0 <= i < |declarations| && declarations[i] == ProjectFile(f) ==> f !in start)
  }

  /** `paths` are exactly the declared project files, each once, in the order of the declarations. */
  ghost predicate FilesInOrder(paths: seq<string>, declarations: seq<Declaration>) {
    && (forall f :: f in paths <==> ProjectFile(f) in declarations)
    && (forall a, b :: 0 <= a < b < |paths| ==> paths[a] != paths[b])
    && (forall a, b, i, j | 0 <= a < b < |paths| && 0 <= i < |declarations| && 0 <= j < |declarations| &&
                            declarations[i] == ProjectFile(paths[a]) && declarations[j] == ProjectFile(paths[b]) :: i < j)
  }

  /** The map looks up the last declaration that was made for a name. */
  lemma {:induction false} LastDeclarationWins(start: DependencyMap, declarations: seq<Declaration>, i: nat)
    requires i < |declarations| && declarations[i].ProjectDependency?
    requires forall j :: i < j < |declarations| && declarations[j].ProjectDependency? ==>
               declarations[j].project != declarations[i].project
    ensures declarations[i].project in DependencyMapOf(start, declarations)
    ensures DependencyMapOf(start, declarations)[declarations[i].project] == declarations[i].dependsOn
  {
    if i < |declarations| - 1 {
      LastDeclarationWins(start, declarations[..|declarations| - 1], i);
    }
  }

  /** ... and names that no declaration is made for are as they were. */
  lemma {:induction false} UndeclaredStay(start: DependencyMap, declarations: seq<Declaration>, name: string)
    requires forall i :: 0 <= i < |declarations| && declarations[i].ProjectDependency? ==> declarations[i].project != name
    ensures name in DependencyMapOf(start, declarations) <==> name in start
    ensures name in start ==> DependencyMapOf(start, declarations)[name] == start[name]
  {
    if declarations != [] {
      UndeclaredStay(start, declarations[..|declarations| - 1], name);
    }
  }

  class Solution {
    var declarations: seq<Declaration>
    var projectFilePaths: seq<string>
    var projects: seq<Project>
    var dependencyMap: DependencyMap

    constructor ()
      ensures declarations == [] && projectFilePaths == [] && projects == [] && dependencyMap == map[]
    {
      declarations, projectFilePaths, projects, dependencyMap := [], [], [], map[];
    }

    method AddDeclaration(declaration: Declaration)
      modifies this`declarations
      ensures declarations == old(declarations) + [declaration]
    {
      declarations := declarations + [declaration];
    }

    method AddProject(project: Project)
      modifies this`projects
      ensures projects == old(projects) + [project]
    {
      projects := projects + [project];
    }

    /** Succeeds exactly when no project file path is given twice; the failure names a path
        that is. */
    method ResolveDeclarations() returns (r: Result<()>)
      requires NoDuplicates(projectFilePaths)
      modifies this`projectFilePaths, this`dependencyMap
      ensures r.Ok? <==> FilesDistinct(old(projectFilePaths), declarations)
      ensures r.Ok? ==>
                var n := |old(projectFilePaths)|;
                && n <= |projectFilePaths| && projectFilePaths[..n] == old(projectFilePaths)
                && FilesInOrder(projectFilePaths[n..], declarations)
      ensures r.Ok? <==> NoDuplicates(old(projectFilePaths) + FilePathsOf(declarations))
      ensures r.Ok? ==> projectFilePaths == old(projectFilePaths) + FilePathsOf(declarations)
      ensures r.Ok? ==> dependencyMap == DependencyMapOf(old(dependencyMap), declarations)
      ensures r.Err? ==> r.error.DuplicateProjectFile? && NoDuplicates(projectFilePaths) &&
                         r.error.path in projectFilePaths &&
                         exists i :: 0 <= i < |declarations| && declarations[i] == ProjectFile(r.error.path)
    {
      hide FilesDistinct, FilesInOrder, FilePathsOf, DependencyMapOf;
      ghost var all := FilePathsOf(declarations);
      PathsDistinctIff(projectFilePaths, declarations);
      if NoDuplicates(projectFilePaths + all) {
        PathsInOrder(projectFilePaths, declarations);
      }
      NoDeclarations(dependencyMap);
      for i := 0 to |declarations|
        invariant projectFilePaths == old(projectFilePaths) + FilePathsOf(declarations[..i])
        invariant dependencyMap == DependencyMapOf(old(dependencyMap), declarations[..i])
        invariant NoDuplicates(projectFilePaths)
      {
        var declaration := declarations[i];
        NextDeclaration(old(dependencyMap), declarations, i);
        match declaration {
          case ProjectFile(filePath) =>
            for j := 0 to |projectFilePaths|
              invariant filePath !in projectFilePaths[..j]
            {
              if projectFilePaths[j] == filePath {
                FilePathsPrefix(declarations, i + 1);
                DuplicateStays(old(projectFilePaths), FilePathsOf(declarations[..i]), filePath,
                               FilePathsOf(declarations), j);
                return Err(DuplicateProjectFile(filePath));
              }
            }
            projectFilePaths := projectFilePaths + [filePath];
          case ProjectDependency(project, dependsOn) =>
            dependencyMap := dependencyMap[project := dependsOn];
          case ActiveProject(_) =>
        }
      }
      assert declarations[..|declarations|] == declarations;
      r := Ok(());
    }

    /** The first loop: names to projects, a later project replacing an earlier namesake. */
    method MapProjects() returns (projectMap: map<string, Project>)
      ensures MapsNames(projects, projectMap)
    {
      projectMap := map[];
      for i := 0 to |projects|
        invariant MapsNames(projects[..i], projectMap)
      {
        MapsNamesExtend(projects[..i], projectMap, projects[i]);
        assert projects[..i + 1] == projects[..i] + [projects[i]];
        projectMap := projectMap[projects[i].name := projects[i]];
      }
      assert projects[..|projects|] == projects;
    }

    /** The second loop: visit every project that no earlier visit has reached. */
    method VisitProjects() returns (r: Result<seq<string>>)
      ensures r.Ok? ==> CompleteSearch(dependencyMap, projects, r.value)
      ensures r.Err? ==> BuildErrorWitness(dependencyMap, projects, r.error)
    {
      var search := new Traversal();
      for i := 0 to |projects|
        invariant fresh(search)
        invariant search.Valid(dependencyMap) && search.tempVisit == {}
        invariant forall k :: 0 <= k < i ==> projects[k].name in search.order
        invariant forall n :: n in search.order ==> ReachableFromAny(dependencyMap, Names(projects), n)
      {
        if projects[i].name !in search.visited {
          var v := search.Visit(projects[i].name, dependencyMap, [], projects[i].name);
          RootOfSearch(dependencyMap, projects, i);
          if v.Err? {
            return Err(v.error);
          }
        }
      }
      r := Ok(search.order);
    }

    /** The third loop: the projects of the names, failing at the first name without one. */
    static method LookUpProjects(order: seq<string>, projectMap: map<string, Project>)
      returns (r: Result<seq<Project>>)
      requires forall n :: n in projectMap ==> projectMap[n].name == n
      ensures r.Ok? ==> Names(r.value) == order && LookedUp(projectMap, r.value)
      ensures r.Err? ==> r.error.NotInSolution? && r.error.name in order && r.error.name !in projectMap
    {
      var buildOrder: seq<Project> := [];
      for i := 0 to |order|
        invariant |buildOrder| == i && Names(buildOrder) == order[..i]
        invariant LookedUp(projectMap, buildOrder)
      {
        if order[i] in projectMap {
          buildOrder := buildOrder + [projectMap[order[i]]];
        } else {
          return Err(NotInSolution(order[i]));
        }
      }
      r := Ok(buildOrder);
    }

    /** Succeeds exactly when the solution is orderable, and then returns a build order. */
    method CreateBuildOrder() returns (r: Result<seq<Project>>)
      ensures r.Ok? <==> Orderable(dependencyMap, projects)
      ensures r.Ok? ==> IsBuildOrder(dependencyMap, projects, r.value)
      ensures r.Err? ==> BuildErrorWitness(dependencyMap, projects, r.error)
      ensures r.Ok? ==> DependenciesBuiltFirst(dependencyMap, projects, r.value)
    {
      var projectMap := MapProjects();
      var search := VisitProjects();
      if search.Err? {
        WitnessRefutes(dependencyMap, projects, search.error);
        return Err(search.error);
      }
      r := LookUpProjects(search.value, projectMap);
      if r.Ok? {
        LookedUpNames(projects, projectMap, r.value);
        SearchOrderable(dependencyMap, projects, search.value);
        SearchIsBuildOrder(dependencyMap, projects, projectMap, search.value, r.value);
        BuiltInOrder(dependencyMap, projects, r.value);
      } else {
        SearchIsReachability(dependencyMap, projects, search.value, r.error.name);
        WitnessRefutes(dependencyMap, projects, r.error);
      }
    }
  }

  ghost predicate MapsNames(projects: seq<Project>, projectMap: map<string, Project>) {
    && (forall n :: n in projectMap <==> n in Names(projects))
    && (forall n :: n in projectMap ==> projectMap[n].name == n && LastNamed(projects, projectMap[n]))
  }

  ghost predicate LookedUp(projectMap: map<string, Project>, found: seq<Project>) {
    forall p :: p in found ==> p.name in projectMap && projectMap[p.name] == p
  }

  lemma LookedUpNames(projects: seq<Project>, projectMap: map<string, Project>, found: seq<Project>)
    requires MapsNames(projects, projectMap) && LookedUp(projectMap, found)
    ensures forall n :: n in Names(found) ==> n in Names(projects)
  {
  }

  lemma MapsNamesExtend(projects: seq<Project>, projectMap: map<string, Project>, next: Project)
    requires MapsNames(projects, projectMap)
    ensures MapsNames(projects + [next], projectMap[next.name := next])
  {
    var more := projects + [next];
    assert Names(more) == Names(projects) + [next.name];
    assert more[|projects|] == next;
    forall n | n in projectMap && n != next.name ensures LastNamed(more, projectMap[n]) {
      var p := projectMap[n];
      var i :| 0 <= i < |projects| && projects[i] == p &&
               forall j :: i < j < |projects| ==> projects[j].name != p.name;
      assert more[i] == p;
    }
  }

  /** What the completed depth-first search has established. */
  ghost predicate CompleteSearch(deps: DependencyMap, projects: seq<Project>, order: seq<string>) {
    && NoDuplicates(order) && DependenciesFirst(deps, order)
    && (forall k :: 0 <= k < |projects| ==> projects[k].name in order)
    && (forall n :: n in order ==> ReachableFromAny(deps, Names(projects), n))
  }

  lemma RootOfSearch(deps: DependencyMap, projects: seq<Project>, i: nat)
    requires i < |projects|
    ensures forall n :: Reachable(Edges(deps), projects[i].name, n) ==> ReachableFromAny(deps, Names(projects), n)
  {
    assert Names(projects)[i] in Names(projects);
  }

  lemma WitnessRefutes(deps: DependencyMap, projects: seq<Project>, error: Error)
    requires BuildErrorWitness(deps, projects, error)
    ensures !Orderable(deps, projects)
  {
  }

  lemma FilePathsPrefix(declarations: seq<Declaration>, n: nat)
    requires n <= |declarations|
    ensures FilePathsOf(declarations[..n]) <= FilePathsOf(declarations)
    decreases |declarations|
  {
    if n < |declarations| {
      assert declarations[..|declarations| - 1][..n] == declarations[..n];
      FilePathsPrefix(declarations[..|declarations| - 1], n);
    } else {
      assert declarations[..n] == declarations;
    }
  }

  lemma NextDeclaration(start: DependencyMap, declarations: seq<Declaration>, i: nat)
    requires i < |declarations|
    ensures FilePathsOf(declarations[..i + 1]) ==
            FilePathsOf(declarations[..i]) + if declarations[i].ProjectFile? then [declarations[i].filePath] else []
    ensures var before := DependencyMapOf(start, declarations[..i]);
            DependencyMapOf(start, declarations[..i + 1]) ==
            if declarations[i].ProjectDependency? then before[declarations[i].project := declarations[i].dependsOn] else before
  {
    assert declarations[..i + 1][..i] == declarations[..i];
  }

  lemma NoDeclarations(start: DependencyMap)
    ensures FilePathsOf([]) == [] && DependencyMapOf(start, []) == start
  {
  }

  /** The path of a project file declaration stands behind the paths of those before it. */
  lemma PathAt(declarations: seq<Declaration>, i: nat)
    requires i < |declarations| && declarations[i].ProjectFile?
    ensures var all, k := FilePathsOf(declarations), |FilePathsOf(declarations[..i])|;
            k < |all| && all[k] == declarations[i].filePath
  {
    assert declarations[..i + 1][..i] == declarations[..i];
    FilePathsPrefix(declarations, i + 1);
  }

  /** ... and every path is that of a declaration. */
  lemma {:induction false} PathSource(declarations: seq<Declaration>, k: nat) returns (i: nat)
    requires k < |FilePathsOf(declarations)|
    ensures i < |declarations| && declarations[i].ProjectFile? && |FilePathsOf(declarations[..i])| == k
  {
    var n := |declarations| - 1;
    if k < |FilePathsOf(declarations[..n])| {
      i := PathSource(declarations[..n], k);
      assert declarations[..n][..i] == declarations[..i];
    } else {
      i := n;
    }
  }

  lemma PathsGrow(declarations: seq<Declaration>, i: nat, j: nat)
    requires i < j <= |declarations| && declarations[i].ProjectFile?
    ensures |FilePathsOf(declarations[..i])| < |FilePathsOf(declarations[..j])|
  {
    assert declarations[..j][..i + 1] == declarations[..i + 1] && declarations[..i + 1][..i] == declarations[..i];
    FilePathsPrefix(declarations[..j], i + 1);
  }

  /** No path occurs twice exactly when no two declarations give the same path, and none gives one
      that was there before. */
  lemma PathsDistinctIff(start: seq<string>, declarations: seq<Declaration>)
    requires NoDuplicates(start)
    ensures NoDuplicates(start + FilePathsOf(declarations)) <==> FilesDistinct(start, declarations)
  {
    var paths := FilePathsOf(declarations);
    var all := start + paths;
    hide FilePathsOf;
    if !FilesDistinct(start, declarations) {
      if i, j, f :| 0 <= i < j < |declarations| && declarations[i] == ProjectFile(f) && declarations[j] == ProjectFile(f) {
        PathAt(declarations, i);
        PathAt(declarations, j);
        PathsGrow(declarations, i, j);
        var x, y := |FilePathsOf(declarations[..i])|, |FilePathsOf(declarations[..j])|;
        assert all[|start| + x] == f && all[|start| + y] == f;
      } else {
        var i, f :| 0 <= i < |declarations| && declarations[i] == ProjectFile(f) && f in start;
        PathAt(declarations, i);
        var x: nat :| x < |start| && start[x] == f;
        assert all[x] == f && all[|start| + |FilePathsOf(declarations[..i])|] == f;
      }
    }
    if !NoDuplicates(all) {
      var x, y :| 0 <= x < y < |all| && all[x] == all[y];
      var j := PathSource(declarations, y - |start|);
      PathAt(declarations, j);
      assert declarations[j] == ProjectFile(all[y]);
      if x < |start| {
        assert all[y] in start;
      } else {
        var i := PathSource(declarations, x - |start|);
        PathAt(declarations, i);
        assert declarations[i] == ProjectFile(all[x]);
      }
    }
  }

  /** The paths are those of the declarations, in their order. */
  lemma PathsInOrder(start: seq<string>, declarations: seq<Declaration>)
    requires NoDuplicates(start + FilePathsOf(declarations))
    ensures FilesInOrder(FilePathsOf(declarations), declarations)
  {
    var paths := FilePathsOf(declarations);
    hide FilePathsOf;
    forall f ensures f in paths <==> ProjectFile(f) in declarations {
      if f in paths {
        var a :| 0 <= a < |paths| && paths[a] == f;
        var i := PathSource(declarations, a);
        PathAt(declarations, i);
      }
      if ProjectFile(f) in declarations {
        var i :| 0 <= i < |declarations| && declarations[i] == ProjectFile(f);
        PathAt(declarations, i);
      }
    }
    assert forall a, b :: 0 <= a < b < |paths| ==> paths[a] != paths[b] by {
      assert forall a :: 0 <= a < |paths| ==> (start + paths)[|start| + a] == paths[a];
    }
    forall a, b, i, j | 0 <= a < b < |paths| && 0 <= i < |declarations| && 0 <= j < |declarations| &&
                        declarations[i] == ProjectFile(paths[a]) && declarations[j] == ProjectFile(paths[b])
      ensures i < j
    {
      PathAt(declarations, i);
      PathAt(declarations, j);
      if j < i {
        PathsGrow(declarations, j, i);
      }
    }
  }

  lemma DuplicateStays(start: seq<string>, sofar: seq<string>, path: string, all: seq<string>, j: nat)
    requires sofar + [path] <= all
    requires j < |start + sofar| && (start + sofar)[j] == path
    ensures !NoDuplicates(start + all)
  {
    var s := start + all;
    assert s[j] == path && s[|start| + |sofar|] == path;
  }

  /** The names reachable from the projects are exactly those of a complete search. */
  lemma SearchIsReachability(deps: DependencyMap, projects: seq<Project>, order: seq<string>, n: string)
    requires CompleteSearch(deps, projects, order)
    ensures n in order <==> ReachableFromAny(deps, Names(projects), n)
    ensures n in order ==> n in deps && !OnCycle(Edges(deps), n)
  {
    if ReachableFromAny(deps, Names(projects), n) {
      var root :| root in Names(projects) && Reachable(Edges(deps), root, n);
      var walk :| WalkFromTo(Edges(deps), walk, root, n);
      OrderClosed(deps, order, walk);
    }
    if n in order {
      OrderedNamesAcyclic(deps, order, n);
    }
  }

  lemma DependenciesBefore(deps: DependencyMap, order: seq<string>, i: nat, n: string)
    requires DependenciesFirst(deps, order) && i < |order| && DependsOn(deps, order[i], n)
    ensures n in order[..i]
  {
    var walk :| WalkFromTo(Edges(deps), walk, order[i], n) && |walk| > 1;
    TransitiveDependenciesFirst(deps, order, walk, i);
  }

  /** A complete search whose names all have projects shows the solution orderable. */
  lemma SearchOrderable(deps: DependencyMap, projects: seq<Project>, order: seq<string>)
    requires CompleteSearch(deps, projects, order)
    requires forall n :: n in order ==> n in Names(projects)
    ensures Orderable(deps, projects)
  {
    forall n ensures n in order <==> ReachableFromAny(deps, Names(projects), n)
             ensures n in order ==> n in deps && !OnCycle(Edges(deps), n) {
      SearchIsReachability(deps, projects, order, n);
    }
  }

  /** ... and its projects form a build order. */
  lemma SearchIsBuildOrder(deps: DependencyMap, projects: seq<Project>, projectMap: map<string, Project>,
                           order: seq<string>, buildOrder: seq<Project>)
    requires MapsNames(projects, projectMap) && CompleteSearch(deps, projects, order)
    requires Names(buildOrder) == order
    requires LookedUp(projectMap, buildOrder)
    ensures IsBuildOrder(deps, projects, buildOrder)
  {
    forall n ensures n in order <==> ReachableFromAny(deps, Names(projects), n) {
      SearchIsReachability(deps, projects, order, n);
    }
    forall i, n | 0 <= i < |order| && DependsOn(deps, order[i], n) ensures n in order[..i] {
      DependenciesBefore(deps, order, i, n);
    }
  }
}
