/** How many attack paths run through each box of the estate map. */
module EstateRoutes {
  import opened Boxes
  import opened Estate

  /** The boxes a path runs through. */
  function BoxesOn(boxOf: map<string, Box>, path: Path): set<Box> {
    set id | id in NodeIds(path) && id in boxOf :: boxOf[id]
  }

  predicate Touches(boxOf: map<string, Box>, openBoxes: set<Box>, path: Path) {
    BoxesOn(boxOf, path) * openBoxes != {}
  }

  predicate Passes(boxOf: map<string, Box>, openBoxes: set<Box>, box: Box, path: Path) {
    Touches(boxOf, openBoxes, path) && box in BoxesOn(boxOf, path)
  }

  /** How many of the paths a predicate holds of. */
  function HowMany(paths: seq<Path>, holds: Path -> bool): (n: nat)
    ensures n <= |paths|
    ensures n > 0 <==> exists i :: 0 <= i < |paths| && holds(paths[i])
  {
    if paths == [] then 0
    else HowMany(paths[..|paths| - 1], holds) + if holds(paths[|paths| - 1]) then 1 else 0
  }

  function PassesAt(boxOf: map<string, Box>, openBoxes: set<Box>, box: Box): Path -> bool {
    path => Passes(boxOf, openBoxes, box, path)
  }

  function TouchesAt(boxOf: map<string, Box>, openBoxes: set<Box>): Path -> bool {
    path => Touches(boxOf, openBoxes, path)
  }

  /** Each shown box with the paths through it that touch what the lens opened, where there are any. */
  ghost predicate RoutesAre(paths: seq<Path>, boxOf: map<string, Box>, openBoxes: set<Box>, shown: set<Box>,
                            routes: map<Box, nat>) {
    && (forall box :: box in routes <==> box in shown && HowMany(paths, PassesAt(boxOf, openBoxes, box)) > 0)
    && (forall box :: box in routes ==> routes[box] == HowMany(paths, PassesAt(boxOf, openBoxes, box)))
  }

  lemma HowManyOneMore(paths: seq<Path>, path: Path, holds: Path -> bool)
    ensures HowMany(paths + [path], holds) == HowMany(paths, holds) + if holds(path) then 1 else 0
  {
    assert (paths + [path])[..|paths|] == paths;
  }

  /** The same paths pass through each box among those that touch what is open as among all. */
  ghost predicate SamePasses(touching: seq<Path>, paths: seq<Path>, boxOf: map<string, Box>, openBoxes: set<Box>) {
    && |touching| == HowMany(paths, TouchesAt(boxOf, openBoxes))
    && forall box :: HowMany(touching, PassesAt(boxOf, openBoxes, box)) ==
                      HowMany(paths, PassesAt(boxOf, openBoxes, box))
  }

  lemma SamePassesOneMore(touching: seq<Path>, paths: seq<Path>, boxOf: map<string, Box>, openBoxes: set<Box>,
                          path: Path)
    requires SamePasses(touching, paths, boxOf, openBoxes)
    ensures SamePasses(if Touches(boxOf, openBoxes, path) then touching + [path] else touching, paths + [path], boxOf,
                       openBoxes)
  {
    HowManyOneMore(paths, path, TouchesAt(boxOf, openBoxes));
    forall box
      ensures HowMany(paths + [path], PassesAt(boxOf, openBoxes, box)) ==
              HowMany(if Touches(boxOf, openBoxes, path) then touching + [path] else touching,
                      PassesAt(boxOf, openBoxes, box))
    {
      HowManyOneMore(paths, path, PassesAt(boxOf, openBoxes, box));
      HowManyOneMore(touching, path, PassesAt(boxOf, openBoxes, box));
    }
  }

  method TouchingOf(paths: seq<Path>, boxOf: map<string, Box>, openBoxes: set<Box>) returns (touching: seq<Path>)
    ensures SamePasses(touching, paths, boxOf, openBoxes)
  {
    touching := [];
    for i := 0 to |paths|
      invariant SamePasses(touching, paths[..i], boxOf, openBoxes)
    {
      SamePassesOneMore(touching, paths[..i], boxOf, openBoxes, paths[i]);
      assert paths[..i + 1] == paths[..i] + [paths[i]];
      if Touches(boxOf, openBoxes, paths[i]) {
        touching := touching + [paths[i]];
      }
    }
    assert paths[..|paths|] == paths;
  }

  method CountRoutes(paths: seq<Path>, boxOf: map<string, Box>, openBoxes: set<Box>, shown: set<Box>)
    returns (routes: map<Box, nat>, total: nat)
    ensures RoutesAre(paths, boxOf, openBoxes, shown, routes)
    ensures total == HowMany(paths, TouchesAt(boxOf, openBoxes))
  {
    var touching := TouchingOf(paths, boxOf, openBoxes);
    total := |touching|;
    routes := map[];
    var left := shown;
    while left != {}
      invariant left <= shown
      invariant RoutesAre(paths, boxOf, openBoxes, shown - left, routes)
    {
      var box :| box in left;
      var count := HowMany(touching, PassesAt(boxOf, openBoxes, box));
      if count > 0 {
        routes := routes[box := count];
      }
      left := left - {box};
    }
    assert shown - left == shown;
  }

  lemma {:induction false} MorePass(paths: seq<Path>, some: Path -> bool, all: Path -> bool)
    requires forall i :: 0 <= i < |paths| && some(paths[i]) ==> all(paths[i])
    ensures HowMany(paths, some) <= HowMany(paths, all)
  {
    if paths != [] {
      MorePass(paths[..|paths| - 1], some, all);
    }
  }

  /** No box counts more paths than the map does. */
  lemma NoBoxCountsMore(paths: seq<Path>, boxOf: map<string, Box>, openBoxes: set<Box>, box: Box)
    ensures HowMany(paths, PassesAt(boxOf, openBoxes, box)) <= HowMany(paths, TouchesAt(boxOf, openBoxes))
  {
    MorePass(paths, PassesAt(boxOf, openBoxes, box), TouchesAt(boxOf, openBoxes));
  }

  lemma TouchedIsShown(paths: seq<Path>, boxOf: map<string, Box>, openBoxes: set<Box>, i: nat) returns (box: Box)
    requires i < |paths| && Touches(boxOf, openBoxes, paths[i])
    ensures box in openBoxes && HowMany(paths, PassesAt(boxOf, openBoxes, box)) > 0
  {
    box :| box in BoxesOn(boxOf, paths[i]) * openBoxes;
    assert PassesAt(boxOf, openBoxes, box)(paths[i]);
  }

  /** The map counts a path exactly when some opened box shows one. */
  lemma TotalIsShown(paths: seq<Path>, boxOf: map<string, Box>, openBoxes: set<Box>, shown: set<Box>,
                     routes: map<Box, nat>)
    requires RoutesAre(paths, boxOf, openBoxes, shown, routes) && openBoxes <= shown
    ensures HowMany(paths, TouchesAt(boxOf, openBoxes)) > 0 <==> exists box :: box in openBoxes && box in routes
  {
    if HowMany(paths, TouchesAt(boxOf, openBoxes)) > 0 {
      var i :| 0 <= i < |paths| && TouchesAt(boxOf, openBoxes)(paths[i]);
      var box := TouchedIsShown(paths, boxOf, openBoxes, i);
      assert box in routes;
    }
    if box :| box in openBoxes && box in routes {
      NoBoxCountsMore(paths, boxOf, openBoxes, box);
    }
  }
}
