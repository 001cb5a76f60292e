/** The order dialogue of the rule-based stand-in (sim/scripted_order.py): a phase
    machine over the guest's sentences and the results of the tools. What a sentence
    means and what a search finds are inputs; what becomes of them is the machine's. */
module PickupScript {
  import opened Wrappers

  datatype Group = Group(name: string, options: seq<string>)

  /** A dish as the search gives it; `required` are its mandatory groups. */
  datatype Hit = Hit(id: string, soldOut: bool, required: seq<Group>)

  datatype Choice = Choice(group: string, option: string)

  datatype CartItem = CartItem(
    hit: Hit, quantity: nat, options: seq<Choice>, pending: seq<Group>, note: Option<string>)

  /** A wish as it is understood for one dish. */
  datatype Kind = Chosen(group: string, option: string) | Groups(groups: seq<string>, question: Sentence)
                | AllergyOpen | AllergyNamed(removal: Option<string>) | Note(text: string) | Unknown

  datatype Wish = Wish(kind: Kind, note: Option<string>)

  datatype Sentence =
    | AskWhat | AskMore | AskName | AskPhone | AskAddress | Restarted
    | Offer(hits: seq<Hit>)
    | SoldOut(hit: Hit)
    | AskAllergy(items: seq<nat>)
    | AskOption(item: nat, group: Group)
    | Spoken(text: string)

  /** What the search found for one part of a sentence. `carried` is the wish of the
      question that was open, understood for this dish. */
  datatype Part =
    | Clear(query: string, hit: Hit, quantity: nat, wish: Option<Wish>, carried: Option<Wish>)
    | Several(query: string, hits: seq<Hit>, raw: Option<string>)
    | Unclear(query: string, say: Sentence)

  datatype Found =
    | Single(part: Part, say: seq<Sentence>, tail: seq<Sentence>)
    | Positions(parts: seq<Part>, say: seq<Sentence>)

  datatype Address = Address(
    postalCode: Option<string>, city: Option<string>, street: Option<string>, house: Option<string>)

  datatype Slots = Slots(name: Option<string>, phone: Option<string>, address: Address)

  datatype Place = Pickup | Stored(id: Option<string>) | Typed(address: Address)

  /** What the machine does next. Broken is the exception it ends in when it looks for
      an open mandatory choice and there is none. */
  datatype Turn =
    | Say(sentences: seq<Sentence>)
    | Search(query: string)
    | CheckZone(address: Address)
    | Lookup(name: Option<string>)
    | Draft(phone: string, name: Option<string>, place: Place, items: seq<CartItem>)
    | Confirm(id: string)
    | Broken

  datatype Phase = Dishes | Choose | Options | More | Customer

  /** Whose turn it is: the guest's, or the tool's that was called last. */
  datatype Awaiting = Guest | Result(of: Turn)

  /** What the script knows of the delivery: the stored address and what the guest says
      to it, and the address the last zone check accepted. */
  datatype Delivery = Delivery(
    wanted: bool, lookedUp: bool, stored: Option<string>, sameOpen: bool, useStored: bool, checked: Option<Address>)

  /** An option that stands in several groups: the line, the groups, the question. */
  datatype OpenGroup = OpenGroup(item: nat, groups: seq<string>, question: Sentence)

  predicate Full(address: Address) {
    address.postalCode.Some? && address.city.Some? && address.street.Some? && address.house.Some?
  }

  // ---- Lines of the order ----

  /** Every mandatory group is chosen or still open, and the dish is to be had. */
  predicate ItemOk(item: CartItem) {
    && !item.hit.soldOut
    && forall i :: 0 <= i < |item.hit.required| ==>
         Open(item, item.hit.required[i]) || IsChosen(item, item.hit.required[i].name)
  }

  predicate Open(item: CartItem, group: Group) {
    group in item.pending
  }

  predicate IsChosen(item: CartItem, group: string) {
    exists i :: 0 <= i < |item.options| && item.options[i].group == group
  }

  predicate AllOk(cart: seq<CartItem>) {
    forall i :: 0 <= i < |cart| ==> ItemOk(cart[i])
  }

  predicate AnyPending(cart: seq<CartItem>) {
    exists i :: 0 <= i < |cart| && cart[i].pending != []
  }

  /** A line that may go into a draft. */
  predicate ItemComplete(item: CartItem) {
    && !item.hit.soldOut && item.pending == []
    && forall i :: 0 <= i < |item.hit.required| ==> IsChosen(item, item.hit.required[i].name)
  }

  function Without(pending: seq<Group>, group: string): seq<Group> {
    if pending == [] then []
    else (if pending[0].name == group then [] else [pending[0]]) + Without(pending[1..], group)
  }

  /** A dish as it comes into the cart, before its wish. */
  function Fresh(hit: Hit, quantity: nat): CartItem {
    CartItem(hit, quantity, [], hit.required, None)
  }

  /** A line with its wish: an option of the menu is chosen and its question dropped, a
      note goes to the kitchen, what the menu does not know stays out. */
  function Wished(item: CartItem, wish: Option<Wish>): CartItem {
    if wish.None? then item
    else
      var noted := if wish.value.note.Some? then item.(note := wish.value.note) else item;
      match wish.value.kind
      case Chosen(group, option) =>
        noted.(options := noted.options + [Choice(group, option)], pending := Without(noted.pending, group))
      case Note(text) => noted.(note := Some(text))
      case AllergyNamed(removal) => noted.(note := removal)
      case _ => noted
  }

  lemma {:induction false} WithoutKeeps(pending: seq<Group>, group: string, other: Group)
    ensures other in Without(pending, group) <==> other in pending && other.name != group
  {
    if pending != [] {
      WithoutKeeps(pending[1..], group, other);
      assert pending == [pending[0]] + pending[1..];
    }
  }

  lemma {:induction false} WishedIsOk(item: CartItem, wish: Option<Wish>)
    requires ItemOk(item)
    ensures ItemOk(Wished(item, wish))
  {
    var now := Wished(item, wish);
    forall i | 0 <= i < |item.hit.required|
      ensures Open(now, item.hit.required[i]) || IsChosen(now, item.hit.required[i].name)
    {
      var group := item.hit.required[i];
      if wish.Some? && wish.value.kind.Chosen? {
        WithoutKeeps(item.pending, wish.value.kind.group, group);
        if group.name == wish.value.kind.group {
          assert now.options[|item.options|].group == group.name;
        } else if IsChosen(item, group.name) {
          var k :| 0 <= k < |item.options| && item.options[k].group == group.name;
          assert now.options[k].group == group.name;
        }
      }
    }
  }

  lemma {:induction false} FreshIsOk(hit: Hit, quantity: nat)
    requires !hit.soldOut
    ensures ItemOk(Fresh(hit, quantity))
  {
  }

  // ---- Where the parts of a sentence go ----

  function Line(part: Part): CartItem
    requires part.Clear?
  {
    Wished(Fresh(part.hit, part.quantity), part.wish)
  }

  predicate Taken(part: Part) {
    part.Clear? && !part.hit.soldOut
  }

  function TakenLine(part: Part): seq<CartItem> {
    if Taken(part) then [Line(part)] else []
  }

  /** The lines of all clear parts that are to be had. */
  function Lines(parts: seq<Part>): seq<CartItem> {
    if parts == [] then []
    else
      var last := parts[|parts| - 1];
      Lines(parts[..|parts| - 1]) + TakenLine(last)
  }

  /** The sentences for all clear parts that are sold out. */
  function SoldOuts(parts: seq<Part>): seq<Sentence> {
    if parts == [] then []
    else
      var last := parts[|parts| - 1];
      SoldOuts(parts[..|parts| - 1]) + if last.Clear? && last.hit.soldOut then [SoldOut(last.hit)] else []
  }

  function QuestionOf(part: Part): Sentence
    requires !part.Clear?
  {
    if part.Several? then Offer(part.hits) else part.say
  }

  /** The first part that is not clear, if there is one. */
  function FirstUnclear(parts: seq<Part>): (first: Option<Part>)
    ensures first.Some? ==> !first.value.Clear? && first.value in parts
  {
    if parts == [] then None
    else
      var before, last := FirstUnclear(parts[..|parts| - 1]), parts[|parts| - 1];
      if before.Some? then before else if last.Clear? then None else Some(last)
  }

  /** What is asked about now: the first part that is not clear. */
  function Questions(parts: seq<Part>): seq<Sentence> {
    if FirstUnclear(parts).Some? then [QuestionOf(FirstUnclear(parts).value)] else []
  }

  /** The queries of all further parts that are not clear. */
  function Laters(parts: seq<Part>): seq<string> {
    if parts == [] then []
    else
      var front, last := parts[..|parts| - 1], parts[|parts| - 1];
      Laters(front) + if !last.Clear? && FirstUnclear(front).Some? then [last.query] else []
  }

  /** Several hits are at least one; a hit that is offered may be sold out. */
  predicate PartOk(part: Part) {
    part.Several? ==> part.hits != []
  }

  predicate FoundOk(found: Found) {
    match found
    case Single(part, _, _) => PartOk(part)
    case Positions(parts, _) => forall i :: 0 <= i < |parts| ==> PartOk(parts[i])
  }
}
