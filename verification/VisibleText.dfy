// The visible-text parser: a stack of inherited flags driven by tag events,
// against what a tree of elements shows.
module VisibleText {

  // The `style` declarations of a tag, names and values trimmed and in lower case.
  type Style = map<string, string>

  const VOID_TAGS: set<string> := {"br", "hr", "img", "input", "source", "wbr", "meta", "link"}

  datatype Frame = Frame(tag: string, displayHidden: bool, visibilityHidden: bool, transparent: bool)

  datatype Event = Start(tag: string, style: Style) | End(tag: string) | Data(text: string)

  // ------------------------------------------------------------ declarations

  predicate Hex(c: char) {
    '0' <= c <= '9' || 'a' <= c <= 'f'
  }

  predicate AllHex(s: string) {
    forall i :: 0 <= i < |s| ==> Hex(s[i])
  }

  // `transparent`, `#[0-9a-f]{3}0` or `#[0-9a-f]{6}00`
  predicate TransparentColor(color: string) {
    || color == "transparent"
    || (|color| == 5 && color[0] == '#' && AllHex(color[1..4]) && color[4] == '0')
    || (|color| == 9 && color[0] == '#' && AllHex(color[1..7]) && color[7] == '0' && color[8] == '0')
  }

  predicate HidesDisplay(style: Style) {
    "display" in style && style["display"] == "none"
  }

  predicate SetsVisibility(style: Style) {
    "visibility" in style
  }

  predicate HidesVisibility(style: Style) {
    SetsVisibility(style) && style["visibility"] == "hidden"
  }

  predicate SetsColor(style: Style) {
    "color" in style && style["color"] != "" && style["color"] !in {"inherit", "currentcolor", "unset"}
  }

  predicate HidesColor(style: Style) {
    SetsColor(style) && TransparentColor(style["color"])
  }

  // --------------------------------------------------------------- the steps

  function Inherit(stack: seq<Frame>): Frame {
    if stack == [] then Frame("", false, false, false) else stack[|stack| - 1]
  }

  function Child(top: Frame, tag: string, style: Style): Frame {
    Frame(tag,
      top.displayHidden || HidesDisplay(style),
      if SetsVisibility(style) then HidesVisibility(style) else top.visibilityHidden,
      if SetsColor(style) then HidesColor(style) else top.transparent)
  }

  function OnStart(stack: seq<Frame>, tag: string, style: Style): seq<Frame> {
    if tag in VOID_TAGS then stack else stack + [Child(Inherit(stack), tag, style)]
  }

  // Everything from the last open element of that name on is closed.
  function OnEnd(stack: seq<Frame>, tag: string): (rest: seq<Frame>)
    ensures rest <= stack
  {
    Close(stack, |stack|, tag)
  }

  function Close(stack: seq<Frame>, upto: nat, tag: string): (rest: seq<Frame>)
    requires upto <= |stack|
    ensures rest <= stack
  {
    if upto == 0 then stack
    else if stack[upto - 1].tag == tag then stack[..upto - 1]
    else Close(stack, upto - 1, tag)
  }

  predicate Hidden(frame: Frame) {
    frame.displayHidden || frame.visibilityHidden || frame.transparent
  }

  function OnData(stack: seq<Frame>, text: string): string {
    if stack == [] || !Hidden(stack[|stack| - 1]) then text else ""
  }

  function NextStack(stack: seq<Frame>, event: Event): seq<Frame> {
    match event
    case Start(tag, style) => OnStart(stack, tag, style)
    case End(tag) => OnEnd(stack, tag)
    case Data(text) => stack
  }

  function Shows(stack: seq<Frame>, event: Event): string {
    if event.Data? then OnData(stack, event.text) else ""
  }

  /** The stack after some events, and the text they let through. */
  function Feed(stack: seq<Frame>, events: seq<Event>): (seq<Frame>, string)
    decreases |events|
  {
    if events == [] then (stack, "")
    else
      var (rest, text) := Feed(NextStack(stack, events[0]), events[1..]);
      (rest, Shows(stack, events[0]) + text)
  }

  function Concat(parts: seq<string>): string {
    if parts == [] then "" else Concat(parts[..|parts| - 1]) + parts[|parts| - 1]
  }

  // `.replace("\u200b", "")`
  function WithoutStruts(s: string): string {
    if s == "" then ""
    else (if s[0] == '\U{200b}' then "" else [s[0]]) + WithoutStruts(s[1..])
  }

  // --------------------------------------------------------------- the class

  class Parser {
    var stack: seq<Frame>
    var parts: seq<string>

    constructor ()
      ensures stack == [] && parts == []
    {
      stack, parts := [], [];
    }

    method HandleStartTag(tag: string, style: Style)
      modifies this`stack
      ensures stack == OnStart(old(stack), tag, style)
    {
      var displayHidden, visibilityHidden, transparent := false, false, false;
      if stack != [] {
        var top := stack[|stack| - 1];
        displayHidden, visibilityHidden, transparent := top.displayHidden, top.visibilityHidden, top.transparent;
      }
      displayHidden := displayHidden || HidesDisplay(style);
      if "visibility" in style {
        visibilityHidden := style["visibility"] == "hidden";
      }
      if SetsColor(style) {
        transparent := TransparentColor(style["color"]);
      }
      if tag !in VOID_TAGS {
        stack := stack + [Frame(tag, displayHidden, visibilityHidden, transparent)];
      }
    }

    method HandleEndTag(tag: string)
      modifies this`stack
      ensures stack == OnEnd(old(stack), tag)
    {
      var index := |stack|;
      while index > 0
        invariant 0 <= index <= |stack| && stack == old(stack)
        invariant Close(stack, index, tag) == OnEnd(stack, tag)
      {
        index := index - 1;
        if stack[index].tag == tag {
          stack := stack[..index];
          return;
        }
      }
    }

    method HandleData(data: string)
      modifies this`parts
      ensures Concat(parts) == Concat(old(parts)) + OnData(stack, data)
    {
      if stack == [] || !Hidden(stack[|stack| - 1]) {
        assert (parts + [data])[..|parts|] == parts;
        parts := parts + [data];
      } else {
        assert Concat(parts) + "" == Concat(parts);
      }
    }

    /** Feeding events one by one does to the fields what `Feed` says. */
    method FeedAll(events: seq<Event>)
      modifies this
      ensures stack == Feed(old(stack), events).0
      ensures Concat(parts) == Concat(old(parts)) + Feed(old(stack), events).1
    {
      hide OnStart, OnEnd, OnData, Concat;
      for i := 0 to |events|
        invariant Feed(stack, events[i..]).0 == Feed(old(stack), events).0
        invariant Concat(parts) + Feed(stack, events[i..]).1 == Concat(old(parts)) + Feed(old(stack), events).1
      {
        ghost var before, shown := stack, Concat(parts);
        assert events[i..][0] == events[i] && events[i..][1..] == events[i + 1..];
        match events[i]
        case Start(tag, style) => HandleStartTag(tag, style);
        case End(tag) => HandleEndTag(tag);
        case Data(text) => HandleData(text);
        Reassociate(shown, Shows(before, events[i]), Feed(stack, events[i + 1..]).1);
      }
      Reassociate(Concat(parts), "", "");
    }
  }

  lemma Reassociate(a: string, b: string, c: string)
    ensures (a + b) + c == a + (b + c)
    ensures a + "" == a
  {
  }

  /** `visible_payment_text` */
  method VisiblePaymentText(events: seq<Event>) returns (text: string)
    ensures text == WithoutStruts(Feed([], events).1)
  {
    var parser := new Parser();
    parser.FeedAll(events);
    assert "" + Feed([], events).1 == Feed([], events).1;
    return WithoutStruts(Concat(parser.parts));
  }

  // ---------------------------------------------------------------- the trees

  datatype Node =
    | Text(text: string)
    | Void(tag: string, style: Style, closed: bool)
    | Element(tag: string, style: Style, children: seq<Node>)

  // Void tags hold nothing, and nothing else is void.
  predicate WellNested(node: Node) {
    match node
    case Text(_) => true
    case Void(tag, _, _) => tag in VOID_TAGS
    case Element(tag, _, children) => tag !in VOID_TAGS && forall i :: 0 <= i < |children| ==> WellNested(children[i])
  }

  predicate AllWellNested(nodes: seq<Node>) {
    forall i :: 0 <= i < |nodes| ==> WellNested(nodes[i])
  }

  function Events(node: Node): seq<Event>
    decreases node, 0
  {
    match node
    case Text(text) => [Data(text)]
    case Void(tag, style, closed) => [Start(tag, style)] + if closed then [End(tag)] else []
    case Element(tag, style, children) => [Start(tag, style)] + AllEvents(children) + [End(tag)]
  }

  function AllEvents(nodes: seq<Node>): seq<Event>
    decreases nodes, 1
  {
    if nodes == [] then [] else Events(nodes[0]) + AllEvents(nodes[1..])
  }

  // An element around a text: outermost first.
  datatype Ancestor = Ancestor(tag: string, style: Style)

  type Path = seq<Ancestor>

  // The innermost style that `sets` something also satisfies `hides`.
  ghost predicate Nearest(path: Path, sets: Style -> bool, hides: Style -> bool) {
    exists i :: NearestAt(path, sets, hides, i)
  }

  ghost predicate NearestAt(path: Path, sets: Style -> bool, hides: Style -> bool, i: int) {
    && 0 <= i < |path| && sets(path[i].style) && hides(path[i].style)
    && forall j :: i < j < |path| ==> !sets(path[j].style)
  }

  /** Text shows when no element around it has display none, the innermost
      visibility around it is not hidden, and the innermost colour is opaque. */
  ghost predicate Visible(path: Path) {
    && (forall i :: 0 <= i < |path| ==> !HidesDisplay(path[i].style))
    && !Nearest(path, SetsVisibility, HidesVisibility)
    && !Nearest(path, SetsColor, HidesColor)
  }

  ghost function Reading(node: Node, path: Path): string
    decreases node, 0
  {
    match node
    case Text(text) => if Visible(path) then text else ""
    case Void(_, _, _) => ""
    case Element(tag, style, children) => AllReading(children, path + [Ancestor(tag, style)])
  }

  /** What a list of nodes shows inside some elements, in document order. */
  ghost function AllReading(nodes: seq<Node>, path: Path): string
    decreases nodes, 1
  {
    if nodes == [] then "" else Reading(nodes[0], path) + AllReading(nodes[1..], path)
  }

  // ------------------------------------------------------- machine and meaning

  function StackOf(path: Path): (stack: seq<Frame>)
    ensures |stack| == |path|
    ensures forall i :: 0 <= i < |path| ==> stack[i].tag == path[i].tag
  {
    if path == [] then []
    else
      var outer := StackOf(path[..|path| - 1]);
      outer + [Child(Inherit(outer), path[|path| - 1].tag, path[|path| - 1].style)]
  }

  lemma NearestSnoc(path: Path, last: Ancestor, sets: Style -> bool, hides: Style -> bool)
    ensures Nearest(path + [last], sets, hides)
       <==> if sets(last.style) then hides(last.style) else Nearest(path, sets, hides)
  {
    var all := path + [last];
    assert all[|path|] == last;
    if sets(last.style) {
      assert hides(last.style) ==> NearestAt(all, sets, hides, |path|);
    } else if i :| NearestAt(path, sets, hides, i) {
      assert NearestAt(all, sets, hides, i);
    }
    if i :| NearestAt(all, sets, hides, i) {
      assert i == |path| || (all[i] == path[i] && NearestAt(path, sets, hides, i)) by {
        assert forall j :: 0 <= j < |path| ==> all[j] == path[j];
      }
    }
  }

  lemma {:induction false} FlagsAreNearest(path: Path)
    ensures var top := Inherit(StackOf(path));
      && (top.displayHidden <==> exists i :: 0 <= i < |path| && HidesDisplay(path[i].style))
      && (top.visibilityHidden <==> Nearest(path, SetsVisibility, HidesVisibility))
      && (top.transparent <==> Nearest(path, SetsColor, HidesColor))
    decreases |path|
  {
    hide HidesDisplay, SetsVisibility, HidesVisibility, SetsColor, HidesColor, Nearest;
    if path == [] {
      NothingIsNearest(SetsVisibility, HidesVisibility);
      NothingIsNearest(SetsColor, HidesColor);
    } else {
      var n := |path| - 1;
      FlagsAreNearest(path[..n]);
      assert path == path[..n] + [path[n]];
      NearestSnoc(path[..n], path[n], SetsVisibility, HidesVisibility);
      NearestSnoc(path[..n], path[n], SetsColor, HidesColor);
      DisplaySnoc(path[..n], path[n]);
    }
  }

  lemma NothingIsNearest(sets: Style -> bool, hides: Style -> bool)
    ensures !Nearest([], sets, hides)
  {
  }

  lemma DisplaySnoc(path: Path, last: Ancestor)
    ensures (exists i :: 0 <= i < |path + [last]| && HidesDisplay((path + [last])[i].style))
       <==> (exists i :: 0 <= i < |path| && HidesDisplay(path[i].style)) || HidesDisplay(last.style)
  {
    var all := path + [last];
    if i :| 0 <= i < |path| && HidesDisplay(path[i].style) {
      assert all[i] == path[i];
    }
    assert all[|path|] == last;
  }

  lemma DataShowsIfVisible(path: Path, text: string)
    ensures OnData(StackOf(path), text) == if Visible(path) then text else ""
  {
    hide HidesDisplay, SetsVisibility, HidesVisibility, SetsColor, HidesColor, Nearest;
    FlagsAreNearest(path);
    if path == [] {
      NothingIsNearest(SetsVisibility, HidesVisibility);
      NothingIsNearest(SetsColor, HidesColor);
    }
  }

  lemma {:induction false} FeedConcat(stack: seq<Frame>, us: seq<Event>, vs: seq<Event>)
    ensures var (mid, first) := Feed(stack, us);
      var (rest, second) := Feed(mid, vs);
      Feed(stack, us + vs) == (rest, first + second)
    decreases |us|
  {
    hide NextStack, Shows;
    if us == [] {
      assert us + vs == vs;
      assert "" + Feed(stack, vs).1 == Feed(stack, vs).1;
    } else {
      assert (us + vs)[1..] == us[1..] + vs;
      FeedConcat(NextStack(stack, us[0]), us[1..], vs);
      var mid := Feed(NextStack(stack, us[0]), us[1..]);
      Reassociate(Shows(stack, us[0]), mid.1, Feed(mid.0, vs).1);
    }
  }

  lemma FeedOne(stack: seq<Frame>, event: Event)
    ensures Feed(stack, [event]) == (NextStack(stack, event), Shows(stack, event))
  {
    hide NextStack, Shows;
    var next := NextStack(stack, event);
    assert [event][1..] == [];
    assert Feed(next, []) == (next, "");
    Reassociate(Shows(stack, event), "", "");
  }

  lemma {:induction false} VoidIsNeverOpen(stack: seq<Frame>, upto: nat, tag: string)
    requires upto <= |stack|
    requires forall i :: 0 <= i < |stack| ==> stack[i].tag != tag
    ensures Close(stack, upto, tag) == stack
  {
    if upto > 0 {
      VoidIsNeverOpen(stack, upto - 1, tag);
    }
  }

  lemma ElementOpensAndCloses(path: Path, tag: string, style: Style)
    requires tag !in VOID_TAGS
    ensures OnStart(StackOf(path), tag, style) == StackOf(path + [Ancestor(tag, style)])
    ensures OnEnd(StackOf(path + [Ancestor(tag, style)]), tag) == StackOf(path)
  {
    hide Child;
    var inner := path + [Ancestor(tag, style)];
    assert inner[..|path|] == path;
  }

  predicate NoVoid(path: Path) {
    forall i :: 0 <= i < |path| ==> path[i].tag !in VOID_TAGS
  }

  /** The events of one well-nested node let through exactly what it shows, and
      leave the stack as it was. */
  lemma {:induction false} NodeReads(node: Node, path: Path)
    requires WellNested(node) && NoVoid(path)
    ensures Feed(StackOf(path), Events(node)) == (StackOf(path), Reading(node, path))
    decreases node, 0
  {
    hide Visible, StackOf, OnData, OnStart, OnEnd, Feed;
    match node
    case Text(text) =>
      FeedOne(StackOf(path), Data(text));
      DataShowsIfVisible(path, text);
    case Void(tag, style, closed) =>
      VoidReads(path, tag, style, closed);
    case Element(tag, style, children) =>
      var inner := path + [Ancestor(tag, style)];
      ElementOpensAndCloses(path, tag, style);
      FeedOne(StackOf(path), Start(tag, style));
      FeedOne(StackOf(inner), End(tag));
      NodesRead(children, inner);
      FeedConcat(StackOf(path), [Start(tag, style)], AllEvents(children));
      FeedConcat(StackOf(path), [Start(tag, style)] + AllEvents(children), [End(tag)]);
      Reassociate("", AllReading(children, inner), "");
      assert "" + AllReading(children, inner) + "" == AllReading(children, inner);
  }

  lemma VoidReads(path: Path, tag: string, style: Style, closed: bool)
    requires tag in VOID_TAGS && NoVoid(path)
    ensures Feed(StackOf(path), Events(Void(tag, style, closed))) == (StackOf(path), "")
  {
    hide StackOf, Feed;
    FeedOne(StackOf(path), Start(tag, style));
    if closed {
      VoidIsNeverOpen(StackOf(path), |path|, tag);
      FeedOne(StackOf(path), End(tag));
      FeedConcat(StackOf(path), [Start(tag, style)], [End(tag)]);
      Reassociate("", "", "");
    } else {
      assert [Start(tag, style)] + [] == [Start(tag, style)];
    }
  }

  lemma {:induction false} NodesRead(nodes: seq<Node>, path: Path)
    requires AllWellNested(nodes) && NoVoid(path)
    ensures Feed(StackOf(path), AllEvents(nodes)) == (StackOf(path), AllReading(nodes, path))
    decreases nodes, 1
  {
    hide StackOf, Events, Reading, WellNested;
    if nodes != [] {
      NodeReads(nodes[0], path);
      NodesRead(nodes[1..], path);
      FeedConcat(StackOf(path), Events(nodes[0]), AllEvents(nodes[1..]));
    }
  }

  /** For every well-nested document the parser returns exactly its visible
      text, without the invisible struts. */
  lemma DocumentReads(nodes: seq<Node>)
    requires AllWellNested(nodes)
    ensures Feed([], AllEvents(nodes)) == ([], AllReading(nodes, []))
  {
    NodesRead(nodes, []);
  }

  // ----------------------------------------------------------- by their values

  /** A hexadecimal colour is transparent exactly when its last digit of four, or
      its last two of eight, are zero. */
  lemma HexColorIsTransparentIff(rgb: string, alpha: string)
    requires AllHex(rgb) && AllHex(alpha) && (|rgb|, |alpha|) in {(3, 1), (6, 2)}
    ensures TransparentColor("#" + rgb + alpha) <==> forall i :: 0 <= i < |alpha| ==> alpha[i] == '0'
  {
    var color := "#" + rgb + alpha;
    assert color[0] == '#' && |color| in {5, 9};
    assert color[1..|color| - |alpha|] == rgb;
    assert |alpha| == 1 ==> color[4] == alpha[0];
    assert |alpha| == 2 ==> color[7] == alpha[0] && color[8] == alpha[1];
  }

  // A colour in hexadecimal digits with no opacity.
  ghost predicate NoOpacity(color: string, rgb: string, alpha: string) {
    && color == "#" + rgb + alpha && (forall c :: c in rgb ==> c in "0123456789abcdef")
    && ((|rgb| == 3 && alpha == "0") || (|rgb| == 6 && alpha == "00"))
  }

  lemma AllHexMeans(s: string)
    ensures AllHex(s) <==> forall c :: c in s ==> c in "0123456789abcdef"
  {
    forall i | 0 <= i < |s| ensures Hex(s[i]) <==> s[i] in "0123456789abcdef" {
      HexDigit(s[i]);
    }
    if forall c :: c in s ==> c in "0123456789abcdef" {
      forall i | 0 <= i < |s| ensures Hex(s[i]) {
        assert s[i] in s;
      }
    }
  }

  lemma HexDigit(c: char)
    ensures Hex(c) <==> c in "0123456789abcdef"
  {
  }

  /** Nothing but the word is transparent besides. */
  lemma OnlyHexColors(color: string)
    ensures TransparentColor(color) <==> color == "transparent" || exists rgb, alpha :: NoOpacity(color, rgb, alpha)
  {
    hide AllHex;
    if |color| == 5 && TransparentColor(color) {
      AllHexMeans(color[1..4]);
      assert NoOpacity(color, color[1..4], "0");
    } else if |color| == 9 && TransparentColor(color) {
      AllHexMeans(color[1..7]);
      assert NoOpacity(color, color[1..7], "00");
    }
    if rgb, alpha :| NoOpacity(color, rgb, alpha) {
      AllHexMeans(rgb);
      ZeroIsHex();
      HexColorIsTransparentIff(rgb, alpha);
    }
  }

  lemma ZeroIsHex()
    ensures AllHex("0") && AllHex("00")
  {
  }

  function Declared(style: Style, name: string): string {
    if name in style then style[name] else ""
  }

  /** Text inside two elements, by what their styles declare: display counts from
      both, visibility from the inner one if it says any, and colour from the
      inner one unless it is empty or taken from outside. */
  lemma TwoElements(outer: Style, inner: Style, text: string)
    ensures
      var display := [Declared(outer, "display"), Declared(inner, "display")];
      var visibility := if "visibility" in inner then inner["visibility"] else Declared(outer, "visibility");
      var color := if Declared(inner, "color") in ["", "inherit", "currentcolor", "unset"]
        then Declared(outer, "color") else Declared(inner, "color");
      OnData(OnStart(OnStart([], "div", outer), "span", inner), text)
        == if "none" in display || visibility == "hidden" || TransparentColor(color) then "" else text
  {
    var stack := OnStart(OnStart([], "div", outer), "span", inner);
    assert |stack| == 2;
  }

  /** Exactly these tags open no element. */
  lemma VoidTagsOpenNothing(stack: seq<Frame>, tag: string, style: Style)
    ensures OnStart(stack, tag, style) == stack
       <==> tag in ["br", "hr", "img", "input", "source", "wbr", "meta", "link"]
  {
    assert |stack + [Child(Inherit(stack), tag, style)]| == |stack| + 1;
  }

  /** Removing struts takes every strut and nothing else. */
  lemma StrutsGo(a: string, b: string)
    ensures WithoutStruts(a + "\U{200b}" + b) == WithoutStruts(a) + WithoutStruts(b)
    ensures '\U{200b}' !in a ==> WithoutStruts(a) == a
  {
    StrutsConcat(a + "\U{200b}", b);
    StrutsConcat(a, "\U{200b}");
    OneStrut();
    Reassociate(WithoutStruts(a), "", "");
    if '\U{200b}' !in a {
      NoStruts(a);
    }
  }

  lemma OneStrut()
    ensures WithoutStruts("\U{200b}") == ""
  {
  }

  lemma {:induction false} NoStruts(s: string)
    requires '\U{200b}' !in s
    ensures WithoutStruts(s) == s
  {
    if s != "" {
      NoStruts(s[1..]);
    }
  }

  lemma {:induction false} StrutsConcat(a: string, b: string)
    ensures WithoutStruts(a + b) == WithoutStruts(a) + WithoutStruts(b)
  {
    if a == "" {
      assert a + b == b && "" + WithoutStruts(b) == WithoutStruts(b);
    } else {
      StrutsConcat(a[1..], b);
      assert (a + b)[0] == a[0] && (a + b)[1..] == a[1..] + b;
      var head := if a[0] == '\U{200b}' then "" else [a[0]];
      assert WithoutStruts(a) == head + WithoutStruts(a[1..]);
      Reassociate(head, WithoutStruts(a[1..]), WithoutStruts(b));
    }
  }
}
