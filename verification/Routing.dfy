/** How the WebDriver server finds the handler of a request, for any table of commands. */
module Routing {
  import opened Wrappers
  import opened Splitting

  datatype HTTPMethod = Get | Post | Delete

  datatype Command = Command(httpMethod: HTTPMethod, uriTemplate: string, handler: string)

  /** A template's tokens: a slot to be bound is a name after a dollar sign. */
  predicate IsSlot(t: string) { t != "" && t[0] == '$' }

  predicate Fits(t: string, token: string) { IsSlot(t) || t == token }

  predicate AllFit(template: seq<string>, tokens: seq<string>) {
    |template| == |tokens| && forall j :: 0 <= j < |template| ==> Fits(template[j], tokens[j])
  }

  predicate Answers(c: Command, m: HTTPMethod, path: string) {
    c.httpMethod == m && AllFit(Split(c.uriTemplate, '/'), Split(path, '/'))
  }

  /** The slots bound to the tokens in their places, later ones over earlier ones. */
  function Bindings(template: seq<string>, tokens: seq<string>): map<string, string>
    requires |template| == |tokens|
  {
    if template == [] then map[]
    else
      var last := |template| - 1;
      var before := Bindings(template[..last], tokens[..last]);
      if IsSlot(template[last]) then before[template[last][1..] := tokens[last]] else before
  }

  datatype Found = Found(index: nat, parameters: map<string, string>)

  lemma BindingsSnoc(template: seq<string>, tokens: seq<string>, j: nat)
    requires j < |template| == |tokens|
    ensures Bindings(template[..j + 1], tokens[..j + 1]) ==
      if IsSlot(template[j]) then Bindings(template[..j], tokens[..j])[template[j][1..] := tokens[j]]
      else Bindings(template[..j], tokens[..j])
  {
    assert template[..j + 1][..j] == template[..j] && tokens[..j + 1][..j] == tokens[..j];
  }

  /** Whether one template answers, with its bindings set over those there were. */
  method MatchTokens(commandTokens: seq<string>, pathTokens: seq<string>, before: map<string, string>)
    returns (allMatched: bool, parameters: map<string, string>)
    requires |commandTokens| == |pathTokens| && Filled(commandTokens)
    ensures allMatched <==> AllFit(commandTokens, pathTokens)
    ensures allMatched ==> parameters == before + Bindings(commandTokens, pathTokens)
  {
    parameters := before;
    allMatched := true;
    var j := 0;
    while j < |pathTokens| && allMatched
      invariant 0 <= j <= |pathTokens|
      invariant allMatched ==> forall k :: 0 <= k < j ==> Fits(commandTokens[k], pathTokens[k])
      invariant allMatched ==> parameters == before + Bindings(commandTokens[..j], pathTokens[..j])
      invariant !allMatched ==> exists k :: 0 <= k < j && !Fits(commandTokens[k], pathTokens[k])
    {
      BindingsSnoc(commandTokens, pathTokens, j);
      if commandTokens[j][0] == '$' {
        parameters := parameters[commandTokens[j][1..] := pathTokens[j]];
      } else if commandTokens[j] != pathTokens[j] {
        allMatched := false;
      }
      j := j + 1;
    }
    assert commandTokens[..|pathTokens|] == commandTokens && pathTokens[..|pathTokens|] == pathTokens;
  }

  /** The search: the first command of the table that answers, with its bindings and no others. */
  method FindCommand(commands: seq<Command>, m: HTTPMethod, path: string) returns (r: Option<Found>)
    ensures r.None? ==> forall i :: 0 <= i < |commands| ==> !Answers(commands[i], m, path)
    ensures r.Some? ==> r.value.index < |commands| && Answers(commands[r.value.index], m, path)
    ensures r.Some? ==> forall i :: 0 <= i < r.value.index ==> !Answers(commands[i], m, path)
    ensures r.Some? ==>
      r.value.parameters == Bindings(Split(commands[r.value.index].uriTemplate, '/'), Split(path, '/'))
  {
    var parameters: map<string, string> := map[];
    for i := 0 to |commands|
      invariant forall k :: 0 <= k < i ==> !Answers(commands[k], m, path)
      invariant parameters == map[]
    {
      if commands[i].httpMethod == m {
        var pathTokens := Split(path, '/');
        var commandTokens := Split(commands[i].uriTemplate, '/');
        if |pathTokens| == |commandTokens| {
          SplitPieces(commands[i].uriTemplate, '/');
          var allMatched;
          allMatched, parameters := MatchTokens(commandTokens, pathTokens, parameters);
          if allMatched {
            return Some(Found(i, parameters));
          }
          parameters := map[];
        }
      }
    }
    r := None;
  }

  // ----- filling in a template -----

  ghost function SlotNames(template: seq<string>): set<string> {
    set j | 0 <= j < |template| && IsSlot(template[j]) :: template[j][1..]
  }

  function FillIn(t: string, given: map<string, string>): string
    requires IsSlot(t) ==> t[1..] in given
  {
    if IsSlot(t) then given[t[1..]] else t
  }

  ghost predicate Bound(template: seq<string>, given: map<string, string>) {
    forall j :: 0 <= j < |template| && IsSlot(template[j]) ==> template[j][1..] in given
  }

  /** The tokens of a request: the template with every slot replaced by its value. */
  ghost function Fill(template: seq<string>, given: map<string, string>): (tokens: seq<string>)
    requires Bound(template, given)
  {
    seq(|template|, j requires 0 <= j < |template| => FillIn(template[j], given))
  }

  lemma SlotNamesSnoc(template: seq<string>)
    requires template != []
    ensures var last := |template| - 1;
      SlotNames(template) ==
      SlotNames(template[..last]) + (if IsSlot(template[last]) then {template[last][1..]} else {})
  {
    var last := |template| - 1;
    forall j | 0 <= j < last && IsSlot(template[j]) ensures template[j][1..] in SlotNames(template[..last]) {
      assert template[..last][j] == template[j];
    }
  }

  lemma {:induction false} BindingsOfFill(template: seq<string>, given: map<string, string>)
    requires Bound(template, given)
    ensures Bindings(template, Fill(template, given)) == map n | n in SlotNames(template) :: given[n]
  {
    if template != [] {
      var last := |template| - 1;
      BindingsOfFill(template[..last], given);
      assert Fill(template, given)[..last] == Fill(template[..last], given);
      SlotNamesSnoc(template);
    }
  }

  lemma SplitRooted(ps: seq<string>)
    requires Filled(ps) && Free(ps, '/')
    ensures Split("/" + Join(ps, '/'), '/') == ps
  {
    SplitAllAround("", '/', Join(ps, '/'));
    assert "" + ['/'] + Join(ps, '/') == "/" + Join(ps, '/');
    assert ([""] + SplitAll(Join(ps, '/'), '/'))[1..] == SplitAll(Join(ps, '/'), '/');
    SplitJoin(ps, '/');
  }

  /** The path is a command's template with its slots filled in. */
  ghost predicate Requests(path: string, c: Command, given: map<string, string>) {
    var template := Split(c.uriTemplate, '/');
    && given.Keys == SlotNames(template)
    && (forall n :: n in given ==> given[n] != "" && '/' !in given[n])
    && path == "/" + Join(Fill(template, given), '/')
  }

  /** A request made by filling in a template is answered by it, with exactly the values filled in. */
  lemma FilledIsAnswered(c: Command, given: map<string, string>, path: string)
    requires Requests(path, c, given)
    ensures Answers(c, c.httpMethod, path)
    ensures Bindings(Split(c.uriTemplate, '/'), Split(path, '/')) == given
  {
    var template := Split(c.uriTemplate, '/');
    SplitPieces(c.uriTemplate, '/');
    SplitRooted(Fill(template, given));
    BindingsOfFill(template, given);
  }

  ghost predicate SlotsDiffer(template: seq<string>) {
    forall j, k :: 0 <= j < k < |template| && IsSlot(template[j]) && IsSlot(template[k]) ==>
      template[j][1..] != template[k][1..]
  }

  lemma {:induction false} BindingsAt(template: seq<string>, tokens: seq<string>, j: nat)
    requires |template| == |tokens| && SlotsDiffer(template)
    requires j < |template| && IsSlot(template[j])
    ensures template[j][1..] in Bindings(template, tokens) && Bindings(template, tokens)[template[j][1..]] == tokens[j]
  {
    var last := |template| - 1;
    if j < last {
      BindingsAt(template[..last], tokens[..last], j);
    }
  }

  /** The inverse: a command that answers and its bindings give the request's tokens back. */
  lemma AnswerFillsBack(c: Command, m: HTTPMethod, path: string)
    requires Answers(c, m, path) && SlotsDiffer(Split(c.uriTemplate, '/'))
    ensures var template := Split(c.uriTemplate, '/');
      Bound(template, Bindings(template, Split(path, '/'))) &&
      Fill(template, Bindings(template, Split(path, '/'))) == Split(path, '/')
  {
    var template, tokens := Split(c.uriTemplate, '/'), Split(path, '/');
    forall j | 0 <= j < |template| && IsSlot(template[j])
      ensures template[j][1..] in Bindings(template, tokens)
      ensures Bindings(template, tokens)[template[j][1..]] == tokens[j]
    {
      BindingsAt(template, tokens, j);
    }
    forall j | 0 <= j < |template| ensures Fill(template, Bindings(template, tokens))[j] == tokens[j] {
      assert Fits(template[j], tokens[j]);
    }
  }
}

/** The server's own table of commands, and why no request is answered by two of them. */
module CommandTable {
  import opened Wrappers
  import opened Splitting
  import opened Routing

  /** What the templates hold between separators: words, and slots. */
  datatype Piece =
    | Session | Status | Timeouts | Url | Back | Forward | Refresh | Title | Window | Handles | Frame | Parent
    | Rect | Maximize | Minimize | Fullscreen | Element | Elements | Active | Selected | Attribute | Property | Css
    | Text | Name | Enabled | Click | Clear | Value | Execute | Sync | Async | Cookie | Actions | Alert | Dismiss
    | Accept | Screenshot | Displayed | SessionIdSlot | ElementIdSlot | NameSlot

  function Spelling(p: Piece): string {
    match p
    case Session => "session"
    case Status => "status"
    case Timeouts => "timeouts"
    case Url => "url"
    case Back => "back"
    case Forward => "forward"
    case Refresh => "refresh"
    case Title => "title"
    case Window => "window"
    case Handles => "handles"
    case Frame => "frame"
    case Parent => "parent"
    case Rect => "rect"
    case Maximize => "maximize"
    case Minimize => "minimize"
    case Fullscreen => "fullscreen"
    case Element => "element"
    case Elements => "elements"
    case Active => "active"
    case Selected => "selected"
    case Attribute => "attribute"
    case Property => "property"
    case Css => "css"
    case Text => "text"
    case Name => "name"
    case Enabled => "enabled"
    case Click => "click"
    case Clear => "clear"
    case Value => "value"
    case Execute => "execute"
    case Sync => "sync"
    case Async => "async"
    case Cookie => "cookie"
    case Actions => "actions"
    case Alert => "alert"
    case Dismiss => "dismiss"
    case Accept => "accept"
    case Screenshot => "screenshot"
    case Displayed => "displayed"
    case SessionIdSlot => "$sessionId"
    case ElementIdSlot => "$elementId"
    case NameSlot => "$name"
  }

  datatype Row = Row(httpMethod: HTTPMethod, pieces: seq<Piece>, handler: string)

  const COMMANDS: nat := 54

  function SessionRow(i: nat): Row
    requires i < 11
  {
    match i
    case 0 => Row(Post, [Session], "newSession")
    case 1 => Row(Delete, [Session, SessionIdSlot], "deleteSession")
    case 2 => Row(Get, [Status], "status")
    case 3 => Row(Get, [Session, SessionIdSlot, Timeouts], "getTimeouts")
    case 4 => Row(Post, [Session, SessionIdSlot, Timeouts], "setTimeouts")
    case 5 => Row(Post, [Session, SessionIdSlot, Url], "go")
    case 6 => Row(Get, [Session, SessionIdSlot, Url], "getCurrentURL")
    case 7 => Row(Post, [Session, SessionIdSlot, Back], "back")
    case 8 => Row(Post, [Session, SessionIdSlot, Forward], "forward")
    case 9 => Row(Post, [Session, SessionIdSlot, Refresh], "refresh")
    case _ => Row(Get, [Session, SessionIdSlot, Title], "getTitle")
  }

  function WindowRow(i: nat): Row
    requires 11 <= i < 22
  {
    match i
    case 11 => Row(Get, [Session, SessionIdSlot, Window], "getWindowHandle")
    case 12 => Row(Delete, [Session, SessionIdSlot, Window], "closeWindow")
    case 13 => Row(Post, [Session, SessionIdSlot, Window], "switchToWindow")
    case 14 => Row(Get, [Session, SessionIdSlot, Window, Handles], "getWindowHandles")
    case 15 => Row(Post, [Session, SessionIdSlot, Frame], "switchToFrame")
    case 16 => Row(Post, [Session, SessionIdSlot, Frame, Parent], "switchToParentFrame")
    case 17 => Row(Get, [Session, SessionIdSlot, Window, Rect], "getWindowRect")
    case 18 => Row(Post, [Session, SessionIdSlot, Window, Rect], "setWindowRect")
    case 19 => Row(Post, [Session, SessionIdSlot, Window, Maximize], "maximizeWindow")
    case 20 => Row(Post, [Session, SessionIdSlot, Window, Minimize], "minimizeWindow")
    case _ => Row(Post, [Session, SessionIdSlot, Window, Fullscreen], "fullscreenWindow")
  }

  function FindRow(i: nat): Row
    requires 22 <= i < 27
  {
    match i
    case 22 => Row(Post, [Session, SessionIdSlot, Element], "findElement")
    case 23 => Row(Post, [Session, SessionIdSlot, Elements], "findElements")
    case 24 => Row(Post, [Session, SessionIdSlot, Element, ElementIdSlot, Element], "findElementFromElement")
    case 25 => Row(Post, [Session, SessionIdSlot, Element, ElementIdSlot, Elements], "findElementsFromElement")
    case _ => Row(Get, [Session, SessionIdSlot, Element, Active], "getActiveElement")
  }

  function ElementRow(i: nat): Row
    requires 27 <= i < 35
  {
    match i
    case 27 => Row(Get, [Session, SessionIdSlot, Element, ElementIdSlot, Selected], "isElementSelected")
    case 28 => Row(Get, [Session, SessionIdSlot, Element, ElementIdSlot, Attribute, NameSlot], "getElementAttribute")
    case 29 => Row(Get, [Session, SessionIdSlot, Element, ElementIdSlot, Property, NameSlot], "getElementProperty")
    case 30 => Row(Get, [Session, SessionIdSlot, Element, ElementIdSlot, Css, NameSlot], "getElementCSSValue")
    case 31 => Row(Get, [Session, SessionIdSlot, Element, ElementIdSlot, Text], "getElementText")
    case 32 => Row(Get, [Session, SessionIdSlot, Element, ElementIdSlot, Name], "getElementTagName")
    case 33 => Row(Get, [Session, SessionIdSlot, Element, ElementIdSlot, Rect], "getElementRect")
    case _ => Row(Get, [Session, SessionIdSlot, Element, ElementIdSlot, Enabled], "isElementEnabled")
  }

  function InputRow(i: nat): Row
    requires 35 <= i < 40
  {
    match i
    case 35 => Row(Post, [Session, SessionIdSlot, Element, ElementIdSlot, Click], "elementClick")
    case 36 => Row(Post, [Session, SessionIdSlot, Element, ElementIdSlot, Clear], "elementClear")
    case 37 => Row(Post, [Session, SessionIdSlot, Element, ElementIdSlot, Value], "elementSendKeys")
    case 38 => Row(Post, [Session, SessionIdSlot, Execute, Sync], "executeScript")
    case _ => Row(Post, [Session, SessionIdSlot, Execute, Async], "executeAsyncScript")
  }

  function CookieRow(i: nat): Row
    requires 40 <= i < 45
  {
    match i
    case 40 => Row(Get, [Session, SessionIdSlot, Cookie], "getAllCookies")
    case 41 => Row(Get, [Session, SessionIdSlot, Cookie, NameSlot], "getNamedCookie")
    case 42 => Row(Post, [Session, SessionIdSlot, Cookie], "addCookie")
    case 43 => Row(Delete, [Session, SessionIdSlot, Cookie, NameSlot], "deleteCookie")
    case _ => Row(Delete, [Session, SessionIdSlot, Cookie], "deleteAllCookies")
  }

  function AlertRow(i: nat): Row
    requires 45 <= i < 51
  {
    match i
    case 45 => Row(Post, [Session, SessionIdSlot, Actions], "performActions")
    case 46 => Row(Delete, [Session, SessionIdSlot, Actions], "releaseActions")
    case 47 => Row(Post, [Session, SessionIdSlot, Alert, Dismiss], "dismissAlert")
    case 48 => Row(Post, [Session, SessionIdSlot, Alert, Accept], "acceptAlert")
    case 49 => Row(Get, [Session, SessionIdSlot, Alert, Text], "getAlertText")
    case _ => Row(Post, [Session, SessionIdSlot, Alert, Text], "sendAlertText")
  }

  function ScreenRow(i: nat): Row
    requires 51 <= i < 54
  {
    match i
    case 51 => Row(Get, [Session, SessionIdSlot, Screenshot], "takeScreenshot")
    case 52 => Row(Get, [Session, SessionIdSlot, Element, ElementIdSlot, Screenshot], "takeElementScreenshot")
    case _ => Row(Get, [Session, SessionIdSlot, Element, ElementIdSlot, Displayed], "isElementDisplayed")
  }

  function RowAt(i: nat): Row
    requires i < COMMANDS
  {
    if i < 11 then SessionRow(i)
    else if i < 22 then WindowRow(i)
    else if i < 27 then FindRow(i)
    else if i < 35 then ElementRow(i)
    else if i < 40 then InputRow(i)
    else if i < 45 then CookieRow(i)
    else if i < 51 then AlertRow(i)
    else ScreenRow(i)
  }

  /** Rows that are easily taken for one another, as they are in the server. */
  lemma NotToBeConfused()
    ensures RowAt(3) == Row(Get, [Session, SessionIdSlot, Timeouts], "getTimeouts")
    ensures RowAt(4) == Row(Post, [Session, SessionIdSlot, Timeouts], "setTimeouts")
    ensures RowAt(5) == Row(Post, [Session, SessionIdSlot, Url], "go")
    ensures RowAt(6) == Row(Get, [Session, SessionIdSlot, Url], "getCurrentURL")
    ensures RowAt(7) == Row(Post, [Session, SessionIdSlot, Back], "back")
    ensures RowAt(8) == Row(Post, [Session, SessionIdSlot, Forward], "forward")
    ensures RowAt(11) == Row(Get, [Session, SessionIdSlot, Window], "getWindowHandle")
    ensures RowAt(12) == Row(Delete, [Session, SessionIdSlot, Window], "closeWindow")
    ensures RowAt(13) == Row(Post, [Session, SessionIdSlot, Window], "switchToWindow")
    ensures RowAt(17) == Row(Get, [Session, SessionIdSlot, Window, Rect], "getWindowRect")
    ensures RowAt(18) == Row(Post, [Session, SessionIdSlot, Window, Rect], "setWindowRect")
    ensures RowAt(22) == Row(Post, [Session, SessionIdSlot, Element], "findElement")
    ensures RowAt(23) == Row(Post, [Session, SessionIdSlot, Elements], "findElements")
    ensures RowAt(38) == Row(Post, [Session, SessionIdSlot, Execute, Sync], "executeScript")
    ensures RowAt(39) == Row(Post, [Session, SessionIdSlot, Execute, Async], "executeAsyncScript")
    ensures RowAt(43) == Row(Delete, [Session, SessionIdSlot, Cookie, NameSlot], "deleteCookie")
    ensures RowAt(44) == Row(Delete, [Session, SessionIdSlot, Cookie], "deleteAllCookies")
    ensures RowAt(47) == Row(Post, [Session, SessionIdSlot, Alert, Dismiss], "dismissAlert")
    ensures RowAt(48) == Row(Post, [Session, SessionIdSlot, Alert, Accept], "acceptAlert")
    ensures RowAt(49) == Row(Get, [Session, SessionIdSlot, Alert, Text], "getAlertText")
    ensures RowAt(50) == Row(Post, [Session, SessionIdSlot, Alert, Text], "sendAlertText")
  {
  }

  function Spellings(pieces: seq<Piece>): seq<string> {
    if pieces == [] then [] else [Spelling(pieces[0])] + Spellings(pieces[1..])
  }

  function Template(pieces: seq<Piece>): string { "/" + Join(Spellings(pieces), '/') }

  function CommandOf(row: Row): Command {
    Command(row.httpMethod, Template(row.pieces), row.handler)
  }

  function Commands(): (commands: seq<Command>)
    ensures |commands| == COMMANDS
    ensures forall i :: 0 <= i < COMMANDS ==> commands[i] == CommandOf(RowAt(i))
  {
    seq(COMMANDS, i requires 0 <= i < COMMANDS => CommandOf(RowAt(i)))
  }

  // ----- the spelling of the pieces -----

  predicate IsSlotPiece(p: Piece) { p.SessionIdSlot? || p.ElementIdSlot? || p.NameSlot? }

  /** The word that a text can only be, told from its first two and its last character. */
  function Guess(s: string): Piece {
    if |s| < 2 then SessionIdSlot else
    var first, second, last := s[0], s[1], s[|s| - 1];
    if first == 's' then if second == 'e' then (if last == 'n' then Session else Selected)
      else if second == 't' then Status
      else if second == 'y' then Sync else Screenshot
    else if first == 't' then if second == 'i' then (if last == 's' then Timeouts else Title) else Text
    else if first == 'u' then Url
    else if first == 'b' then Back
    else if first == 'f' then if second == 'o' then Forward else if second == 'r' then Frame else Fullscreen
    else if first == 'r' then if last == 'h' then Refresh else Rect
    else if first == 'w' then Window
    else if first == 'h' then Handles
    else if first == 'p' then if second == 'a' then Parent else Property
    else if first == 'm' then if second == 'a' then Maximize else Minimize
    else if first == 'e' then if second == 'l' then (if last == 't' then Element else Elements)
      else if second == 'n' then Enabled else Execute
    else if first == 'a' then
      if second == 'c' then (if last == 'e' then Active else if last == 's' then Actions else Accept)
      else if second == 't' then Attribute
      else if second == 's' then Async else Alert
    else if first == 'c' then if second == 's' then Css
      else if second == 'l' then (if last == 'k' then Click else Clear) else Cookie
    else if first == 'n' then Name
    else if first == 'v' then Value
    else if last == 's' then Dismiss else Displayed
  }

  /** The first half of the words. */
  predicate Early(p: Piece) {
    match p
    case Session | Status | Timeouts | Url | Back | Forward | Refresh | Title | Window | Handles | Frame
    | Parent | Rect | Maximize | Minimize | Fullscreen | Element | Elements | Active | Selected | Attribute
    => true
    case _ => false
  }

  ghost predicate IsPlain(s: string) { s != "" && '/' !in s }

  lemma EarlyIsPlain(p: Piece)
    requires Early(p)
    ensures IsPlain(Spelling(p))
  {
  }

  lemma LateIsPlain(p: Piece)
    requires !Early(p)
    ensures IsPlain(Spelling(p))
  {
  }

  lemma SpellingIsPlain(p: Piece)
    ensures IsPlain(Spelling(p))
  {
    if Early(p) {
      EarlyIsPlain(p);
    } else {
      LateIsPlain(p);
    }
  }

  /** A spelling shows whether its piece is a slot, and which word it is. */
  ghost predicate IsTelling(p: Piece) {
    (IsSlot(Spelling(p)) <==> IsSlotPiece(p)) && (IsSlotPiece(p) || Guess(Spelling(p)) == p)
  }

  lemma EarlyIsTelling(p: Piece)
    requires Early(p)
    ensures IsTelling(p)
  {
  }

  lemma LateIsTelling(p: Piece)
    requires !Early(p)
    ensures IsTelling(p)
  {
  }

  lemma SpellingIsTelling(p: Piece)
    ensures IsTelling(p)
  {
    if Early(p) {
      EarlyIsTelling(p);
    } else {
      LateIsTelling(p);
    }
  }

  lemma {:induction false} SpellingsAt(pieces: seq<Piece>)
    ensures |Spellings(pieces)| == |pieces|
    ensures forall j :: 0 <= j < |pieces| ==> Spellings(pieces)[j] == Spelling(pieces[j])
  {
    if pieces != [] {
      SpellingsAt(pieces[1..]);
    }
  }

  /** Splitting a template gives back its pieces. */
  lemma TemplateSplits(pieces: seq<Piece>)
    ensures Split(Template(pieces), '/') == Spellings(pieces)
  {
    SpellingsAt(pieces);
    forall j | 0 <= j < |pieces| ensures IsPlain(Spellings(pieces)[j]) {
      SpellingIsPlain(pieces[j]);
    }
    SplitRooted(Spellings(pieces));
  }

  // ----- no request is answered twice -----

  function Delete3(ps: seq<Piece>): nat
    requires |ps| == 3
  {
    match ps[2]
    case Window => 12
    case Cookie => 44
    case Actions => 46
    case _ => COMMANDS
  }

  function Get3(ps: seq<Piece>): nat
    requires |ps| == 3
  {
    match ps[2]
    case Timeouts => 3
    case Url => 6
    case Title => 10
    case Window => 11
    case Cookie => 40
    case Screenshot => 51
    case _ => COMMANDS
  }

  function Get4(ps: seq<Piece>): nat
    requires |ps| == 4
  {
    match ps[2]
    case Window => (match ps[3]
      case Handles => 14
      case Rect => 17
      case _ => COMMANDS)
    case Element => 26
    case Cookie => 41
    case Alert => 49
    case _ => COMMANDS
  }

  function Get5(ps: seq<Piece>): nat
    requires |ps| == 5
  {
    match ps[4]
    case Selected => 27
    case Text => 31
    case Name => 32
    case Rect => 33
    case Enabled => 34
    case Screenshot => 52
    case Displayed => 53
    case _ => COMMANDS
  }

  function Get6(ps: seq<Piece>): nat
    requires |ps| == 6
  {
    match ps[4]
    case Attribute => 28
    case Property => 29
    case Css => 30
    case _ => COMMANDS
  }

  function Post3(ps: seq<Piece>): nat
    requires |ps| == 3
  {
    match ps[2]
    case Timeouts => 4
    case Url => 5
    case Back => 7
    case Forward => 8
    case Refresh => 9
    case Window => 13
    case Frame => 15
    case Element => 22
    case Elements => 23
    case Cookie => 42
    case Actions => 45
    case _ => COMMANDS
  }

  function Post4(ps: seq<Piece>): nat
    requires |ps| == 4
  {
    match ps[2]
    case Frame => 16
    case Window => (match ps[3]
      case Rect => 18
      case Maximize => 19
      case Minimize => 20
      case Fullscreen => 21
      case _ => COMMANDS)
    case Execute => (match ps[3]
      case Sync => 38
      case Async => 39
      case _ => COMMANDS)
    case Alert => (match ps[3]
      case Dismiss => 47
      case Accept => 48
      case Text => 50
      case _ => COMMANDS)
    case _ => COMMANDS
  }

  function Post5(ps: seq<Piece>): nat
    requires |ps| == 5
  {
    match ps[4]
    case Element => 24
    case Elements => 25
    case Click => 35
    case Clear => 36
    case Value => 37
    case _ => COMMANDS
  }

  /** The one command that could answer a request, read off a few of its tokens. */
  function Decide(m: HTTPMethod, ps: seq<Piece>): nat {
    match m
    case Get =>
      if |ps| == 1 then 2
      else if |ps| == 3 then Get3(ps)
      else if |ps| == 4 then Get4(ps)
      else if |ps| == 5 then Get5(ps)
      else if |ps| == 6 then Get6(ps)
      else COMMANDS
    case Post =>
      if |ps| == 1 then 0
      else if |ps| == 3 then Post3(ps)
      else if |ps| == 4 then Post4(ps)
      else if |ps| == 5 then Post5(ps)
      else COMMANDS
    case Delete =>
      if |ps| == 2 then 1
      else if |ps| == 3 then Delete3(ps)
      else if |ps| == 4 then 43
      else COMMANDS
  }

  /** The pieces that a request's tokens can only be. */
  function View(tokens: seq<string>): (ps: seq<Piece>)
    ensures |ps| == |tokens| && forall j :: 0 <= j < |ps| ==> ps[j] == Guess(tokens[j])
  {
    if tokens == [] then [] else [Guess(tokens[0])] + View(tokens[1..])
  }

  ghost predicate ReadsAs(pieces: seq<Piece>, ps: seq<Piece>) {
    |pieces| == |ps| && forall j :: 0 <= j < |pieces| && !IsSlotPiece(pieces[j]) ==> ps[j] == pieces[j]
  }

  lemma SessionRowDecides(i: nat, ps: seq<Piece>)
    requires i < 11 && ReadsAs(SessionRow(i).pieces, ps)
    ensures Decide(SessionRow(i).httpMethod, ps) == i
  {
  }

  lemma WindowRowDecides(i: nat, ps: seq<Piece>)
    requires 11 <= i < 22 && ReadsAs(WindowRow(i).pieces, ps)
    ensures Decide(WindowRow(i).httpMethod, ps) == i
  {
  }

  lemma FindRowDecides(i: nat, ps: seq<Piece>)
    requires 22 <= i < 27 && ReadsAs(FindRow(i).pieces, ps)
    ensures Decide(FindRow(i).httpMethod, ps) == i
  {
  }

  lemma ElementRowDecides(i: nat, ps: seq<Piece>)
    requires 27 <= i < 35 && ReadsAs(ElementRow(i).pieces, ps)
    ensures Decide(ElementRow(i).httpMethod, ps) == i
  {
  }

  lemma InputRowDecides(i: nat, ps: seq<Piece>)
    requires 35 <= i < 40 && ReadsAs(InputRow(i).pieces, ps)
    ensures Decide(InputRow(i).httpMethod, ps) == i
  {
  }

  lemma CookieRowDecides(i: nat, ps: seq<Piece>)
    requires 40 <= i < 45 && ReadsAs(CookieRow(i).pieces, ps)
    ensures Decide(CookieRow(i).httpMethod, ps) == i
  {
  }

  lemma AlertRowDecides(i: nat, ps: seq<Piece>)
    requires 45 <= i < 51 && ReadsAs(AlertRow(i).pieces, ps)
    ensures Decide(AlertRow(i).httpMethod, ps) == i
  {
  }

  lemma ScreenRowDecides(i: nat, ps: seq<Piece>)
    requires 51 <= i < 54 && ReadsAs(ScreenRow(i).pieces, ps)
    ensures Decide(ScreenRow(i).httpMethod, ps) == i
  {
  }

  lemma RowDecides(i: nat, ps: seq<Piece>)
    requires i < COMMANDS && ReadsAs(RowAt(i).pieces, ps)
    ensures Decide(RowAt(i).httpMethod, ps) == i
  {
    if i < 11 {
      SessionRowDecides(i, ps);
    } else if i < 22 {
      WindowRowDecides(i, ps);
    } else if i < 27 {
      FindRowDecides(i, ps);
    } else if i < 35 {
      ElementRowDecides(i, ps);
    } else if i < 40 {
      InputRowDecides(i, ps);
    } else if i < 45 {
      CookieRowDecides(i, ps);
    } else if i < 51 {
      AlertRowDecides(i, ps);
    } else {
      ScreenRowDecides(i, ps);
    }
  }

  lemma AnswerReads(row: Row, m: HTTPMethod, path: string)
    requires Answers(CommandOf(row), m, path)
    ensures row.httpMethod == m && ReadsAs(row.pieces, View(Split(path, '/')))
  {
    TemplateSplits(row.pieces);
    SpellingsAt(row.pieces);
    var tokens := Split(path, '/');
    forall j | 0 <= j < |row.pieces| && !IsSlotPiece(row.pieces[j]) ensures Guess(tokens[j]) == row.pieces[j] {
      assert Fits(Spelling(row.pieces[j]), tokens[j]);
      SpellingIsTelling(row.pieces[j]);
    }
  }

  /** No request, whatever its path, is answered by two commands of the table. */
  lemma OneAnswer(i: nat, k: nat, m: HTTPMethod, path: string)
    requires i < COMMANDS && k < COMMANDS
    ensures Answers(Commands()[i], m, path) && Answers(Commands()[k], m, path) ==> i == k
  {
    if Answers(Commands()[i], m, path) && Answers(Commands()[k], m, path) {
      AnswerReads(RowAt(i), m, path);
      AnswerReads(RowAt(k), m, path);
      RowDecides(i, View(Split(path, '/')));
      RowDecides(k, View(Split(path, '/')));
    }
  }

  /** Where the slots stand in a row. */
  predicate SlotsInPlace(ps: seq<Piece>) {
    && |ps| <= 6
    && (|ps| > 0 ==> !IsSlotPiece(ps[0]))
    && (|ps| > 1 ==> ps[1].SessionIdSlot?)
    && (|ps| > 2 ==> !IsSlotPiece(ps[2]))
    && (|ps| > 3 ==> !ps[3].SessionIdSlot? && (ps[3].NameSlot? ==> |ps| == 4))
    && (|ps| > 4 ==> !IsSlotPiece(ps[4]))
    && (|ps| > 5 ==> ps[5].NameSlot?)
  }

  lemma SessionRowSlots(i: nat)
    requires i < 11
    ensures SlotsInPlace(SessionRow(i).pieces)
  {
  }

  lemma WindowRowSlots(i: nat)
    requires 11 <= i < 22
    ensures SlotsInPlace(WindowRow(i).pieces)
  {
  }

  lemma FindRowSlots(i: nat)
    requires 22 <= i < 27
    ensures SlotsInPlace(FindRow(i).pieces)
  {
  }

  lemma ElementRowSlots(i: nat)
    requires 27 <= i < 35
    ensures SlotsInPlace(ElementRow(i).pieces)
  {
  }

  lemma InputRowSlots(i: nat)
    requires 35 <= i < 40
    ensures SlotsInPlace(InputRow(i).pieces)
  {
  }

  lemma CookieRowSlots(i: nat)
    requires 40 <= i < 45
    ensures SlotsInPlace(CookieRow(i).pieces)
  {
  }

  lemma AlertRowSlots(i: nat)
    requires 45 <= i < 51
    ensures SlotsInPlace(AlertRow(i).pieces)
  {
  }

  lemma ScreenRowSlots(i: nat)
    requires 51 <= i < 54
    ensures SlotsInPlace(ScreenRow(i).pieces)
  {
  }

  lemma TableSlotsInPlace(i: nat)
    requires i < COMMANDS
    ensures SlotsInPlace(RowAt(i).pieces)
  {
    if i < 11 {
      SessionRowSlots(i);
    } else if i < 22 {
      WindowRowSlots(i);
    } else if i < 27 {
      FindRowSlots(i);
    } else if i < 35 {
      ElementRowSlots(i);
    } else if i < 40 {
      InputRowSlots(i);
    } else if i < 45 {
      CookieRowSlots(i);
    } else if i < 51 {
      AlertRowSlots(i);
    } else {
      ScreenRowSlots(i);
    }
  }

  lemma SlotSpellings(p: Piece)
    requires IsSlotPiece(p)
    ensures Spelling(p) ==
      match p case SessionIdSlot => "$sessionId" case ElementIdSlot => "$elementId" case _ => "$name"
  {
  }

  lemma SlotsStandApart(pieces: seq<Piece>)
    requires SlotsInPlace(pieces)
    ensures SlotsDiffer(Split(Template(pieces), '/'))
  {
    TemplateSplits(pieces);
    SpellingsAt(pieces);
    var template := Spellings(pieces);
    forall j, k | 0 <= j < k < |template| && IsSlot(template[j]) && IsSlot(template[k])
      ensures template[j][1..] != template[k][1..]
    {
      assert IsSlotPiece(pieces[j]) && IsSlotPiece(pieces[k]) by {
        SpellingIsTelling(pieces[j]);
        SpellingIsTelling(pieces[k]);
      }
      PlacesDiffer(pieces, j, k);
      SlotNamesDiffer(pieces[j], pieces[k]);
    }
  }

  lemma PlacesDiffer(pieces: seq<Piece>, j: nat, k: nat)
    requires SlotsInPlace(pieces) && j < k < |pieces| && IsSlotPiece(pieces[j]) && IsSlotPiece(pieces[k])
    ensures pieces[j] != pieces[k]
  {
  }

  lemma SlotNamesDiffer(p: Piece, q: Piece)
    requires IsSlotPiece(p) && IsSlotPiece(q) && p != q
    ensures IsSlot(Spelling(p)) && IsSlot(Spelling(q)) && Spelling(p)[1..] != Spelling(q)[1..]
  {
    SlotSpellings(p);
    SlotSpellings(q);
    assert Spelling(p)[1..][0] == Spelling(p)[1] && Spelling(q)[1..][0] == Spelling(q)[1];
  }

  /** A request is answered by one command, by no other, and with the given bindings. */
  ghost predicate RoundTrips(i: nat, given: map<string, string>, path: string)
    requires i < COMMANDS
  {
    && Answers(Commands()[i], Commands()[i].httpMethod, path)
    && Bindings(Split(Commands()[i].uriTemplate, '/'), Split(path, '/')) == given
    && forall k :: 0 <= k < COMMANDS && Answers(Commands()[k], Commands()[i].httpMethod, path) ==> k == i
  }

  /** Round trip through the whole table: a filled-in template is answered by its own command, by no other,
      and with the values filled in. */
  lemma TableRoundTrip(i: nat, given: map<string, string>, path: string)
    requires i < COMMANDS
    ensures Requests(path, Commands()[i], given) ==> RoundTrips(i, given, path)
  {
    if Requests(path, Commands()[i], given) {
      FilledIsAnswered(Commands()[i], given, path);
      forall k | 0 <= k < COMMANDS && Answers(Commands()[k], Commands()[i].httpMethod, path) ensures k == i {
        OneAnswer(i, k, Commands()[i].httpMethod, path);
      }
    }
  }

  /** And back: the answer to a request and its bindings determine the request's tokens. */
  lemma TableFillsBack(i: nat, m: HTTPMethod, path: string)
    requires i < COMMANDS && Answers(Commands()[i], m, path)
    ensures var template := Split(Commands()[i].uriTemplate, '/');
      Bound(template, Bindings(template, Split(path, '/'))) &&
      Fill(template, Bindings(template, Split(path, '/'))) == Split(path, '/')
  {
    TableSlotsInPlace(i);
    SlotsStandApart(RowAt(i).pieces);
    AnswerFillsBack(Commands()[i], m, path);
  }

  /** The server's search answers with the only command that answers, or there is none. */
  method RouteRequest(m: HTTPMethod, path: string) returns (r: Option<Found>)
    ensures r.None? <==> forall i :: 0 <= i < COMMANDS ==> !Answers(Commands()[i], m, path)
    ensures r.Some? ==> r.value.index < COMMANDS
    ensures r.Some? ==> forall i :: 0 <= i < COMMANDS ==> (Answers(Commands()[i], m, path) <==> i == r.value.index)
    ensures r.Some? ==>
      r.value.parameters == Bindings(Split(Commands()[r.value.index].uriTemplate, '/'), Split(path, '/'))
  {
    r := FindCommand(Commands(), m, path);
    if r.Some? {
      forall i | 0 <= i < COMMANDS && Answers(Commands()[i], m, path) ensures i == r.value.index {
        OneAnswer(i, r.value.index, m, path);
      }
    }
  }
}
