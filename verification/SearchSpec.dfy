/**
 What a method search looks at, in which order, and what it is to find: the
 linearization of a class into blocks of methodlists, and a scan over it.
 */
module SearchSpec {
  import opened Prelude

  /** A function pointer, which is not NULL. */
  type Imp = x: nat | 0 < x witness 1

  /** `fatal` marks a method for which a second implementation would be an unexpected override. */
  datatype Method = Method(methodid: nat, imp: Imp, fatal: bool)

  /** The methods of a class (categoryid 0) or of one of its categories. */
  datatype MethodList = MethodList(categoryid: nat, methods: seq<Method>)

  /** The MULLE_OBJC_CLASS_DONT_INHERIT flags. `superInheritance` keeps the flags of the search for superclasses. */
  datatype Inheritance = Inheritance(superclass: bool, categories: bool, protocols: bool, protocolCategories: bool,
                                     protocolMeta: bool, cls: bool, superInheritance: bool)
  {
    function Or(that: Inheritance): Inheritance {
      Inheritance(superclass || that.superclass, categories || that.categories, protocols || that.protocols,
                  protocolCategories || that.protocolCategories, protocolMeta || that.protocolMeta, cls || that.cls,
                  superInheritance || that.superInheritance)
    }
  }

  const INHERIT_ALL := Inheritance(false, false, false, false, false, false, false)

  /** An infraclass or metaclass: its methodlists, oldest first, the list of the class itself at 0. */
  datatype Class = Class(lists: seq<MethodList>, inheritance: Inheritance)

  /** A class with its metaclass. Superclass and mixins are positions in the hierarchy. */
  datatype ClassPair = ClassPair(classid: nat, superclass: Option<nat>, mixins: seq<nat>, isMixin: bool,
                                 infra: Class, meta: Class)

  type Hierarchy = seq<ClassPair>

  datatype ClassRef = ClassRef(pair: nat, meta: bool)

  /** Superclasses are installed before their subclasses, and every class has at least one methodlist. */
  ghost predicate ValidHierarchy(h: Hierarchy) {
    forall i | 0 <= i < |h| ::
      && (h[i].superclass.Some? ==> h[i].superclass.value < i)
      && (forall k | 0 <= k < |h[i].mixins| :: h[i].mixins[k] < |h|)
      && |h[i].infra.lists| > 0 && |h[i].meta.lists| > 0
  }

  function ClassOf(h: Hierarchy, c: ClassRef): Class
    requires c.pair < |h|
  {
    if c.meta then h[c.pair].meta else h[c.pair].infra
  }

  /** The superclass of a root metaclass is its own infraclass. */
  function SuperclassOf(h: Hierarchy, c: ClassRef): Option<ClassRef>
    requires c.pair < |h|
  {
    var s := h[c.pair].superclass;
    if s.Some? then Some(ClassRef(s.value, c.meta))
    else if c.meta then Some(ClassRef(c.pair, false))
    else None
  }

  // ----- linearization

  function NewestFirst(lists: seq<MethodList>): seq<MethodList> {
    if lists == [] then [] else [lists[|lists| - 1]] + NewestFirst(lists[..|lists| - 1])
  }

  /** Newest category to class, as far as the flags allow. */
  function VisibleLists(cls: Class, inh: Inheritance): seq<MethodList>
    requires |cls.lists| > 0
  {
    NewestFirst(cls.lists[if inh.cls then 1 else 0..if inh.categories then 1 else |cls.lists|])
  }

  /** The methodlists that a search sees of one class. */
  datatype Block = Block(cls: ClassRef, classid: nat, lists: seq<MethodList>, mixin: bool)

  /** The flags with which the mixins of a class are searched: nothing beyond the mixin itself. */
  function MixinInheritance(inh: Inheritance, own: Inheritance): Inheritance {
    INHERIT_ALL.(categories := inh.protocolCategories, superclass := true, superInheritance := true, protocols := true).Or(own)
  }

  /** The first `k` mixins of a class as they are searched, last one first. A class does not search itself as a mixin. */
  function MixinBlocks(h: Hierarchy, c: ClassRef, inh: Inheritance, k: nat): seq<Block>
    requires ValidHierarchy(h) && c.pair < |h| && k <= |h[c.pair].mixins|
  {
    if k == 0 then []
    else
      var m := ClassRef(h[c.pair].mixins[k - 1], c.meta);
      var rest := MixinBlocks(h, c, inh, k - 1);
      if m.pair == c.pair then rest
      else
        [Block(m, h[m.pair].classid, VisibleLists(ClassOf(h, m), MixinInheritance(inh, ClassOf(h, m).inheritance)), true)] + rest
  }

  /** Root metaclass to root infraclass is a special step if the mixins of the infraclass are not to be seen. */
  predicate CrossesToInfra(c: ClassRef, inh: Inheritance, super: ClassRef) {
    inh.protocolMeta && c.meta && !super.meta
  }

  /** The flags with which the superclass is searched. */
  function SuperInheritance(h: Hierarchy, c: ClassRef, inh: Inheritance, super: ClassRef): Inheritance
    requires super.pair < |h|
  {
    var own := ClassOf(h, super).inheritance;
    if CrossesToInfra(c, inh, super) then
      (if inh.superInheritance then inh else own.(superInheritance := true)).(protocols := true, protocolMeta := true)
    else if inh.superInheritance then inh
    else own
  }

  /** What a search sees of a class before its superclass. */
  function OwnBlocks(h: Hierarchy, c: ClassRef, inh: Inheritance): seq<Block>
    requires ValidHierarchy(h) && c.pair < |h|
  {
    [Block(c, h[c.pair].classid, VisibleLists(ClassOf(h, c), inh), false)]
    + if inh.protocols || h[c.pair].isMixin then [] else MixinBlocks(h, c, inh, |h[c.pair].mixins|)
  }

  /** What a search that starts at a class sees, in the order in which it sees it. */
  function Blocks(h: Hierarchy, c: ClassRef, inh: Inheritance): seq<Block>
    requires ValidHierarchy(h) && c.pair < |h|
    decreases c.pair, c.meta
  {
    var super := SuperclassOf(h, c);
    OwnBlocks(h, c, inh)
    + (if super.None? || inh.superclass then []
       else Blocks(h, super.value, SuperInheritance(h, c, inh, super.value)))
  }

  // ----- scanning

  /** What is searched for, and where a relative search starts. */
  datatype Search =
    | SearchDefault(methodid: nat)
    | SearchImp(imp: nat)
    | SearchSuper(methodid: nat, classid: nat)
    | SearchOverridden(methodid: nat, classid: nat, categoryid: nat)
    | SearchSpecific(methodid: nat, classid: nat, categoryid: nat)

  /** The progress of a search: 1 looks for the class, 2 has found it (and looks for the category), 3 has found the category. */
  datatype Mode = Default | Imp | Super1 | Super2 | Overridden1 | Overridden2 | Overridden3 | Specific1 | Specific2 | Specific3

  function InitialMode(s: Search): Mode {
    match s
    case SearchDefault(_) => Default
    case SearchImp(_) => Imp
    case SearchSuper(_, _) => Super1
    case SearchOverridden(_, _, _) => Overridden1
    case SearchSpecific(_, _, _) => Specific1
  }

  /** The mode belongs to that kind of search. */
  predicate ModeOf(s: Search, mode: Mode) {
    match s
    case SearchDefault(_) => mode.Default?
    case SearchImp(_) => mode.Imp?
    case SearchSuper(_, _) => mode.Super1? || mode.Super2?
    case SearchOverridden(_, _, _) => mode.Overridden1? || mode.Overridden2? || mode.Overridden3?
    case SearchSpecific(_, _, _) => mode.Specific1? || mode.Specific2? || mode.Specific3?
  }

  predicate Matches(m: Method, s: Search) {
    if s.SearchImp? then m.imp == s.imp else m.methodid == s.methodid
  }

  /** The first method of a list that matches. */
  function FirstMatch(methods: seq<Method>, s: Search): (r: Option<Method>)
    ensures r.None? <==> forall m | m in methods :: !Matches(m, s)
    ensures r.Some? ==> r.value in methods && Matches(r.value, s)
  {
    if methods == [] then None
    else if Matches(methods[0], s) then Some(methods[0])
    else FirstMatch(methods[1..], s)
  }

  /** A matching method and where it was found. */
  datatype Hit = Hit(cls: ClassRef, list: MethodList, found: Method)

  /** All matches that a search comes by, the mode it ends in, and whether it ends for good. */
  datatype Scan = Scan(hits: seq<Hit>, mode: Mode, over: bool, invalid: bool)

  function Then(a: Scan, b: Scan): Scan {
    Scan(a.hits + b.hits, b.mode, b.over, b.invalid)
  }

  function ScanLists(b: Block, lists: seq<MethodList>, s: Search, mode: Mode): Scan
    requires ModeOf(s, mode)
    decreases |lists|
  {
    if lists == [] then Scan([], mode, false, false)
    else
      var list, rest := lists[0], lists[1..];
      if mode.Overridden2? then
        ScanLists(b, rest, s, if list.categoryid == s.categoryid then Overridden3 else Overridden2)
      else if mode.Specific2? && list.categoryid != s.categoryid then
        ScanLists(b, rest, s, Specific2)
      else
        var first := FirstMatch(list.methods, s);
        if mode.Specific2? || mode.Specific3? then
          if first.None? then Scan([], Specific3, !b.mixin, false)
          else Scan([Hit(b.cls, list, first.value)], Specific3, !b.mixin || !first.value.fatal, false)
        else if first.None? || (mode.Overridden3? && s.classid == b.classid && s.categoryid == list.categoryid) then
          ScanLists(b, rest, s, mode)
        else
          Then(Scan([Hit(b.cls, list, first.value)], mode, false, false), ScanLists(b, rest, s, mode))
  }

  function ScanBlock(b: Block, s: Search, mode: Mode): Scan
    requires ModeOf(s, mode)
  {
    if mode.Super1? then Scan([], if s.classid == b.classid then Super2 else Super1, false, false)
    else if (mode.Overridden1? || mode.Specific1?) && s.classid != b.classid then Scan([], mode, false, false)
    else
      var r := ScanLists(b, b.lists, s, if mode.Overridden1? then Overridden2 else if mode.Specific1? then Specific2 else mode);
      if r.mode.Overridden2? || r.mode.Specific2? then r.(over := true, invalid := true) else r
  }

  function ScanBlocks(bs: seq<Block>, s: Search, mode: Mode): (r: Scan)
    requires ModeOf(s, mode)
    decreases |bs|
  {
    if bs == [] then Scan([], mode, false, false)
    else
      var a := ScanBlock(bs[0], s, mode);
      ScanBlockMode(bs[0], s, mode);
      if a.over then a else Then(a, ScanBlocks(bs[1..], s, a.mode))
  }

  lemma {:induction false} ScanListsMode(b: Block, lists: seq<MethodList>, s: Search, mode: Mode)
    requires ModeOf(s, mode)
    ensures ModeOf(s, ScanLists(b, lists, s, mode).mode)
    decreases |lists|
  {
    if lists != [] {
      ScanListsMode(b, lists[1..], s, mode);
      if mode.Overridden2? {
        ScanListsMode(b, lists[1..], s, Overridden3);
      }
    }
  }

  lemma {:induction false} ScanBlockMode(b: Block, s: Search, mode: Mode)
    requires ModeOf(s, mode)
    ensures ModeOf(s, ScanBlock(b, s, mode).mode)
  {
    ScanListsMode(b, b.lists, s, if mode.Overridden1? then Overridden2 else if mode.Specific1? then Specific2 else mode);
  }

  // ----- outcomes

  datatype Errno = ENOENT | EINVAL | EEXIST

  datatype Outcome = Found(hit: Hit) | Failed(error: Errno)

  /** A relative search has not come by the class it starts from. */
  predicate Anchoring(mode: Mode) {
    mode.Super1? || mode.Overridden1?
  }

  /** The first match, unless it minds being an override and there is another one. */
  function Judge(scan: Scan): Outcome {
    if scan.hits == [] then Failed(if scan.invalid || Anchoring(scan.mode) then EINVAL else ENOENT)
    else if !scan.hits[0].found.fatal || |scan.hits| == 1 then Found(scan.hits[0])
    else Failed(EEXIST)
  }

  /** The result of a search, by the linearization. */
  function SearchResult(h: Hierarchy, c: ClassRef, s: Search, inh: Inheritance): Outcome
    requires ValidHierarchy(h) && c.pair < |h|
  {
    Judge(ScanBlocks(Blocks(h, c, inh), s, InitialMode(s)))
  }

  // ----- composing scans

  /** The place that a relative search starts from lies behind it; any other search is always there. */
  predicate Past(mode: Mode) {
    mode.Default? || mode.Imp? || mode.Super2? || mode.Overridden3? || mode.Specific3?
  }

  /** Every class ends with the category found, if it is looked for at all. */
  predicate Resting(mode: Mode) {
    !mode.Overridden2? && !mode.Specific2?
  }

  lemma {:induction false} ScanListsFacts(b: Block, lists: seq<MethodList>, s: Search, mode: Mode)
    requires ModeOf(s, mode) && (Past(mode) || !Resting(mode))
    ensures var r := ScanLists(b, lists, s, mode);
            && (Past(r.mode) || r.mode == mode) && (r.hits != [] ==> Past(r.mode)) && !r.invalid
            && (r.over ==> r.mode.Specific3? && (b.mixin ==> r.hits != [] && !r.hits[0].found.fatal))
    decreases |lists|
  {
    if lists != [] {
      ScanListsFacts(b, lists[1..], s, mode);
      ScanListsMode(b, lists[1..], s, mode);
      if mode.Overridden2? {
        ScanListsFacts(b, lists[1..], s, Overridden3);
      }
    }
  }

  lemma {:induction false} ScanBlockFacts(b: Block, s: Search, mode: Mode)
    requires ModeOf(s, mode)
    ensures var r := ScanBlock(b, s, mode);
            && ModeOf(s, r.mode) && (Resting(mode) ==> Resting(r.mode) || r.invalid)
            && (Past(mode) || r.hits != [] ==> Past(r.mode) && !r.invalid)
            && (r.invalid ==> r.over && r.hits == [] && !Anchoring(r.mode))
            && (r.over && b.mixin ==> r.invalid || (r.hits != [] && !r.hits[0].found.fatal))
  {
    ScanBlockMode(b, s, mode);
    if !mode.Super1? {
      ScanListsFacts(b, b.lists, s, if mode.Overridden1? then Overridden2 else if mode.Specific1? then Specific2 else mode);
    }
  }

  lemma {:induction false} ScanBlocksFacts(bs: seq<Block>, s: Search, mode: Mode)
    requires ModeOf(s, mode)
    ensures var r := ScanBlocks(bs, s, mode);
            && ModeOf(s, r.mode) && (Resting(mode) ==> Resting(r.mode) || r.invalid)
            && (Past(mode) || r.hits != [] ==> Past(r.mode) && !r.invalid)
            && (r.invalid ==> r.over && r.hits == [] && !Anchoring(r.mode))
            && (r.over && (forall b | b in bs :: b.mixin) ==> r.invalid || (r.hits != [] && (!r.hits[0].found.fatal || |r.hits| > 1)))
    decreases |bs|
  {
    if bs != [] {
      ScanBlockFacts(bs[0], s, mode);
      ScanBlocksFacts(bs[1..], s, ScanBlock(bs[0], s, mode).mode);
      assert bs[0] in bs && forall b | b in bs[1..] :: b in bs;
    }
  }

  lemma {:induction false} ThenAssociative(a: Scan, b: Scan, c: Scan)
    ensures Then(Then(a, b), c) == Then(a, Then(b, c))
  {
    assert (a.hits + b.hits) + c.hits == a.hits + (b.hits + c.hits);
  }

  lemma {:induction false} ScanConcat(a: seq<Block>, b: seq<Block>, s: Search, mode: Mode)
    requires ModeOf(s, mode)
    ensures var first := ScanBlocks(a, s, mode);
            && ModeOf(s, first.mode)
            && ScanBlocks(a + b, s, mode) == if first.over then first else Then(first, ScanBlocks(b, s, first.mode))
    decreases |a|
  {
    ScanBlocksFacts(a, s, mode);
    if a == [] {
      assert a + b == b;
      var r := ScanBlocks(b, s, mode);
      assert [] + r.hits == r.hits;
    } else {
      var head := ScanBlock(a[0], s, mode);
      ScanBlockMode(a[0], s, mode);
      assert (a + b)[1..] == a[1..] + b && (a + b)[0] == a[0];
      if !head.over {
        var tail := ScanBlocks(a[1..], s, head.mode);
        ScanConcat(a[1..], b, s, head.mode);
        assert ScanBlocks(a, s, mode) == Then(head, tail);
        assert ScanBlocks(a + b, s, mode) == Then(head, ScanBlocks(a[1..] + b, s, head.mode));
        if !tail.over {
          ThenAssociative(head, tail, ScanBlocks(b, s, tail.mode));
        }
      }
    }
  }
}
