/** The home page: eight built-in content items, a tab bar that filters them by type, a featured post
    that the arrows and a ten-second timer move through the filtered list, a header that collapses once
    the page is scrolled, and dark mode.

    Changing the tab keeps the featured index, so an index that was valid in a longer list can point past
    the end of a shorter one, and the featured card then looks up an item that does not exist.
    `Home.ChangeTab` keeps that behaviour; `Home.ChangeTabAndReset` is the corrected handler, which
    also moves the featured index back to the first item. */
module HomePage {
  import opened Query
  import opened Carousel

  /** The four item types, spelled in lower case on this page. */
  datatype Kind = Article | Video | Project | Repository

  /** A tab of the tab bar: everything, or one type. */
  datatype Tab = All | Only(kind: Kind)

  function KindName(k: Kind): string {
    match k
    case Article => "article"
    case Video => "video"
    case Project => "project"
    case Repository => "repository"
  }

  /** The value a tab hands to the tab-change handler. */
  function TabName(t: Tab): string {
    match t
    case All => "all"
    case Only(k) => KindName(k)
  }

  /** A built-in item. */
  datatype Item = Item(id: string, title: string, kind: Kind)

  const Contents: seq<Item> := [
    Item("1", "The Future of Web Development", Article),
    Item("2", "Building a React Native App", Video),
    Item("3", "Machine Learning Chatbot", Project),
    Item("4", "Awesome JavaScript", Repository),
    Item("5", "Mastering CSS Grid Layout", Article),
    Item("6", "Introduction to GraphQL", Video),
    Item("7", "Building a Serverless API", Project),
    Item("8", "Awesome React Hooks", Repository)
  ]

  /** The tab bar, in order. */
  const Tabs: seq<Tab> := [All, Only(Article), Only(Video), Only(Project), Only(Repository)]

  /** Every tab value is in the bar, and the bar's values are spelled as the handler receives them. */
  lemma {:induction false} TabBarComplete(t: Tab)
    ensures t in Tabs
    ensures TabName(t) in ["all", "article", "video", "project", "repository"]
  {
    match t
    case All =>
    case Only(k) =>
      match k
      case Article => assert t == Tabs[1];
      case Video => assert t == Tabs[2];
      case Project => assert t == Tabs[3];
      case Repository => assert t == Tabs[4];
  }

  /** The items of `items` of type `k`, in their order. */
  function OfKind(items: seq<Item>, k: Kind): seq<Item> {
    if items == [] then []
    else (if items[0].kind == k then [items[0]] else []) + OfKind(items[1..], k)
  }

  /** The filter keeps exactly the items of that type, and no more items than there are. */
  lemma {:induction false} OfKindMembers(items: seq<Item>, k: Kind)
    ensures |OfKind(items, k)| <= |items|
    ensures forall c :: c in OfKind(items, k) <==> c in items && c.kind == k
  {
    if items != [] {
      OfKindMembers(items[1..], k);
      assert items == [items[0]] + items[1..];
    }
  }

  /** The filter keeps the items' order: filtering two pieces is filtering the first and then the second. */
  lemma {:induction false} OfKindAppend(a: seq<Item>, b: seq<Item>, k: Kind)
    ensures OfKind(a + b, k) == OfKind(a, k) + OfKind(b, k)
  {
    if a == [] {
      assert a + b == b;
    } else {
      assert (a + b)[0] == a[0];
      assert (a + b)[1..] == a[1..] + b;
      OfKindAppend(a[1..], b, k);
    }
  }

  /** The items the tab shows: every item for "all", otherwise those of the tab's type. */
  function Filtered(tab: Tab): seq<Item> {
    if tab == All then Contents else OfKind(Contents, tab.kind)
  }

  /** A tab shows exactly the items whose type name is the tab's value, or every item for "all". */
  lemma {:induction false} FilteredMembers(tab: Tab)
    ensures forall c :: c in Filtered(tab) <==> c in Contents && (tab == All || TabName(tab) == KindName(c.kind))
  {
    if tab != All {
      OfKindMembers(Contents, tab.kind);
      forall c: Item ensures c.kind == tab.kind <==> TabName(tab) == KindName(c.kind) {
        KindNameInjective(c.kind, tab.kind);
      }
    }
  }

  /** Different types have different names. */
  lemma {:induction false} KindNameInjective(a: Kind, b: Kind)
    ensures KindName(a) == KindName(b) <==> a == b
  {
    if a != b {
      assert KindName(a)[0] != KindName(b)[0] || |KindName(a)| != |KindName(b)|;
    }
  }

  /** With the built-in items every tab shows something: all eight items, or the two of its type. So the
      arithmetic modulo the list length never divides by zero. */
  lemma EveryTabNonEmpty()
    ensures |Contents| == 8
    ensures |OfKind(Contents, Article)| == 2 && |OfKind(Contents, Video)| == 2
    ensures |OfKind(Contents, Project)| == 2 && |OfKind(Contents, Repository)| == 2
  {
  }

  /** The position of a type's first built-in item. */
  function KindIndex(k: Kind): nat {
    match k
    case Article => 0
    case Video => 1
    case Project => 2
    case Repository => 3
  }

  /** The built-in items as the first four and the last four: each half holds one item of every type. */
  lemma ContentsHalves()
    ensures Contents == Contents[..4] + Contents[4..]
    ensures Contents[..4] == [Contents[0], Contents[1], Contents[2], Contents[3]]
    ensures Contents[4..] == [Contents[4], Contents[5], Contents[6], Contents[7]]
  {
  }

  /** Four items holding one of each type, in the order of `KindIndex`: a type filter keeps just its one. */
  lemma {:induction false} OfKindOneOfEach(s: seq<Item>, k: Kind)
    requires |s| == 4 && s[0].kind == Article && s[1].kind == Video && s[2].kind == Project
    requires s[3].kind == Repository
    ensures OfKind(s, k) == [s[KindIndex(k)]]
  {
    assert OfKind(s[4..], k) == [];
    assert OfKind(s[3..], k) == (if k == Repository then [s[3]] else []) by { assert s[3..][1..] == s[4..]; }
    assert OfKind(s[2..], k) == (if k == Project then [s[2]] else []) + OfKind(s[3..], k)
      by { assert s[2..][1..] == s[3..]; }
    assert OfKind(s[1..], k) == (if k == Video then [s[1]] else []) + OfKind(s[2..], k)
      by { assert s[1..][1..] == s[2..]; }
  }

  /** Each type tab shows its two built-in items in the order they are listed, so the first card of a
      tab is its earlier item. */
  lemma {:induction false} FilteredInOrder(k: Kind)
    ensures var i := KindIndex(k);
      Filtered(Only(k)) == [Contents[i], Contents[i + 4]]
  {
    ContentsHalves();
    OfKindAppend(Contents[..4], Contents[4..], k);
    var i := KindIndex(k);
    OfKindOneOfEach(Contents[..4], k);
    OfKindOneOfEach(Contents[4..], k);
  }

  /** Whichever tab is active, its list is not empty. */
  lemma {:induction false} TabNonEmpty(tab: Tab)
    ensures |Filtered(tab)| >= 1
  {
    EveryTabNonEmpty();
    match tab
    case All =>
    case Only(k) =>
      match k
      case Article =>
      case Video =>
      case Project =>
      case Repository =>
  }

  /** What the as-written tab change runs into: the sixth item of "all" exists, the sixth item of
      "article" does not. */
  lemma {:induction false} TabChangeOutOfRange()
    ensures 5 < |Filtered(All)| && |Filtered(Only(Article))| == 2
  {
    EveryTabNonEmpty();
  }

  /** The page state. */
  class Home {
    var darkMode: bool
    var activeTab: Tab
    var featuredPostIndex: nat
    var scrolled: bool

    /** The featured index names an item of the current tab. */
    ghost predicate InRange()
      reads this
    {
      featuredPostIndex < |Filtered(activeTab)|
    }

    /** The page as first rendered: dark, on "all", first item featured, header expanded. */
    constructor ()
      ensures InRange()
      ensures darkMode && activeTab == All && featuredPostIndex == 0 && !scrolled
    {
      darkMode, activeTab, featuredPostIndex, scrolled := true, All, 0, false;
    }

    /** The number of items the current tab shows, which is never 0. */
    function Count(): (n: nat)
      reads this
      ensures n == |Filtered(activeTab)| && n >= 1
    {
      TabNonEmpty(activeTab);
      |Filtered(activeTab)|
    }

    /** The right arrow: one step forward, modulo the count. Afterwards the index is in range, whatever
        it was before. */
    method NextFeatured()
      modifies this
      ensures InRange()
      ensures featuredPostIndex == Next(old(featuredPostIndex), Count())
      ensures darkMode == old(darkMode) && activeTab == old(activeTab) && scrolled == old(scrolled)
    {
      var n := Count();
      featuredPostIndex := Next(featuredPostIndex, n);
    }

    /** The left arrow: one step back, modulo the count. */
    method PrevFeatured()
      modifies this
      ensures InRange()
      ensures featuredPostIndex == PrevMod(old(featuredPostIndex), Count())
      ensures darkMode == old(darkMode) && activeTab == old(activeTab) && scrolled == old(scrolled)
    {
      var n := Count();
      featuredPostIndex := PrevMod(featuredPostIndex, n);
    }

    /** The ten-second timer: the same step as the right arrow, over the current tab's list. */
    method Tick()
      modifies this
      ensures InRange()
      ensures featuredPostIndex == Next(old(featuredPostIndex), Count())
      ensures darkMode == old(darkMode) && activeTab == old(activeTab) && scrolled == old(scrolled)
    {
      var n := Count();
      featuredPostIndex := Next(featuredPostIndex, n);
    }

    /** A scroll event: the header collapses exactly when the page is more than 50 pixels down. */
    method OnScroll(scrollY: int)
      modifies this
      ensures scrolled <==> scrollY > 50
      ensures darkMode == old(darkMode) && activeTab == old(activeTab)
      ensures featuredPostIndex == old(featuredPostIndex)
    {
      scrolled := scrollY > 50;
    }

    method ToggleDarkMode()
      modifies this
      ensures darkMode == !old(darkMode)
      ensures activeTab == old(activeTab) && featuredPostIndex == old(featuredPostIndex) && scrolled == old(scrolled)
    {
      darkMode := !darkMode;
    }

    /** Choosing a tab, as written: the tab changes and the featured index stays what it was. */
    method ChangeTab(tab: Tab)
      modifies this
      ensures activeTab == tab
      ensures featuredPostIndex == old(featuredPostIndex)
      ensures darkMode == old(darkMode) && scrolled == old(scrolled)
    {
      activeTab := tab;
    }

    /** Choosing a tab, corrected: the featured index goes back to the first item, so it stays in range. */
    method ChangeTabAndReset(tab: Tab)
      modifies this
      ensures InRange() && activeTab == tab && featuredPostIndex == 0
      ensures darkMode == old(darkMode) && scrolled == old(scrolled)
    {
      activeTab := tab;
      featuredPostIndex := 0;
      TabNonEmpty(tab);
    }

    /** The featured item. */
    function Featured(): (item: Item)
      requires InRange()
      reads this
      ensures item in Contents && (activeTab == All || TabName(activeTab) == KindName(item.kind))
    {
      FilteredMembers(activeTab);
      assert Filtered(activeTab)[featuredPostIndex] in Filtered(activeTab);
      Filtered(activeTab)[featuredPostIndex]
    }
  }

  /** Five steps forward on "all", then the "article" tab as written: the featured index points past the
      end of the list. */
  method TabChangeBreaksRange() returns (home: Home)
    ensures home.activeTab == Only(Article) && home.featuredPostIndex == 5
    ensures !home.InRange()
  {
    home := new Home();
    var k := 0;
    while k < 5
      invariant 0 <= k <= 5
      invariant home.activeTab == All && home.featuredPostIndex == k
      invariant fresh(home)
    {
      TabChangeOutOfRange();
      home.NextFeatured();
      k := k + 1;
    }
    home.ChangeTab(Only(Article));
    TabChangeOutOfRange();
  }

  /** The same steps with the corrected tab change leave the index in range. */
  method TabChangeAndResetKeepsRange() returns (home: Home)
    ensures home.activeTab == Only(Article) && home.InRange()
  {
    home := new Home();
    var k := 0;
    while k < 5
      invariant 0 <= k <= 5
      invariant home.activeTab == All
      invariant fresh(home)
    {
      home.NextFeatured();
      k := k + 1;
    }
    home.ChangeTabAndReset(Only(Article));
  }
}
