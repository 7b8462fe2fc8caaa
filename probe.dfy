/**
 * The extraction probe: the function the scraper evaluates inside the results page
 * (`extractResults`). It lists every result item of the page, maps each to a
 * five-field record by first-match heuristics with sentinel defaults, and drops
 * the items whose name cannot be resolved. The page's markup is abstracted to
 * what the probe reads from it; CSS selectors are not modelled.
 */
module Probe {
  import opened Wrappers
  import opened Text

  /** An anchor of a result item: its `data-value` and `aria-label` attributes and its `href`. */
  datatype Link = Link(dataValue: Option<string>, ariaLabel: Option<string>, href: Option<string>)

  /**
   * One result item (an element with role "article"), reduced to what the probe reads:
   * the aria-label of its title link, the text of its title element, the texts of its
   * detail lines and of its rating element, and all of its anchors in document order.
   * `None` stands for an element or attribute that is not there.
   */
  datatype Item = Item(
    nameLabel: Option<string>,
    nameText: Option<string>,
    details: seq<string>,
    rating: Option<string>,
    links: seq<Link>)

  /** The record the probe emits for an item. Every field is always present. */
  datatype Record = Record(name: string, rating: string, address: string, phone: string, website: string)

  const NoName := "No Name"
  const NoRating := "No Rating"
  const NoAddress := "No Address"
  const NoPhone := "No Phone"
  const NoWebsite := "No Website"

  /** A possibly missing string that JavaScript treats as true: present and non-empty. */
  predicate Present(v: Option<string>) {
    v.Some? && v.value != ""
  }

  /** `v || fallback` for a possibly missing string. */
  function OrElse(v: Option<string>, fallback: string): string {
    if Present(v) then v.value else fallback
  }

  /** `i` is the index of the first element of `s` that satisfies `p`. */
  predicate IsFirst<T>(s: seq<T>, p: T -> bool, i: int) {
    0 <= i < |s| && p(s[i]) && forall j :: 0 <= j < i ==> !p(s[j])
  }

  /** No element of `s` satisfies `p`. */
  predicate NoneSatisfy<T>(s: seq<T>, p: T -> bool) {
    forall i :: 0 <= i < |s| ==> !p(s[i])
  }

  /** `s.find(p)`: the first element that satisfies `p`, if any. */
  function Find<T>(s: seq<T>, p: T -> bool): (r: Option<T>)
    ensures r.None? <==> NoneSatisfy(s, p)
    ensures r.Some? ==> r.value in s && p(r.value)
    ensures forall i :: IsFirst(s, p, i) ==> r == Some(s[i])
  {
    if s == [] then None
    else if p(s[0]) then Some(s[0])
    else
      var r := Find(s[1..], p);
      assert forall i :: IsFirst(s, p, i) ==> IsFirst(s[1..], p, i - 1);
      r
  }

  /** The address heuristic: `d.includes(',') || /\d+/.test(d)`. */
  predicate LooksLikeAddress(d: string) {
    ',' in d || HasDigit(d)
  }

  /** The phone heuristic: `d.includes('+') || /^\d{5,}/.test(d.replace(/\s/g, ''))`. */
  predicate LooksLikePhone(d: string) {
    '+' in d || StartsWithDigits(StripWhitespace(d), 5)
  }

  /**
   * `s.find(p) || sentinel` over strings, when neither the sentinel nor the empty
   * string satisfies `p`: the sentinel exactly when nothing matches, else the first match.
   */
  lemma FindOrSentinel(s: seq<string>, p: string -> bool, sentinel: string)
    requires !p(sentinel) && !p("")
    ensures var r := OrElse(Find(s, p), sentinel);
      && (r == sentinel <==> NoneSatisfy(s, p))
      && forall i :: IsFirst(s, p, i) ==> r == s[i]
  {
  }

  /** The address sentinel has no comma and no digit. */
  lemma AddressSentinelIsNoAddress()
    ensures !LooksLikeAddress(NoAddress)
  {
    assert forall k :: 0 <= k < |NoAddress| ==> NoAddress[k] != ',' && !IsDigit(NoAddress[k]);
  }

  /** The phone sentinel has no `+` and starts with a letter once white space is removed. */
  lemma PhoneSentinelIsNoPhone()
    ensures !LooksLikePhone(NoPhone)
  {
    assert forall k :: 0 <= k < |NoPhone| ==> NoPhone[k] != '+';
    assert '+' !in NoPhone;
    assert NoPhone[0] == 'N' && !IsWhitespace('N');
    var stripped := StripWhitespace(NoPhone);
    assert stripped == ['N'] + StripWhitespace(NoPhone[1..]);
    assert !IsDigit(stripped[0]);
    assert !StartsWithDigits(stripped, 5);
  }

  /** The first detail line that looks like an address, or the address sentinel. */
  function ResolveAddress(details: seq<string>): (r: string)
    ensures r == NoAddress <==> NoneSatisfy(details, LooksLikeAddress)
    ensures forall i :: IsFirst(details, LooksLikeAddress, i) ==> r == details[i]
  {
    AddressSentinelIsNoAddress();
    FindOrSentinel(details, LooksLikeAddress, NoAddress);
    OrElse(Find(details, LooksLikeAddress), NoAddress)
  }

  /** The first detail line that looks like a phone number, or the phone sentinel. */
  function ResolvePhone(details: seq<string>): (r: string)
    ensures r == NoPhone <==> NoneSatisfy(details, LooksLikePhone)
    ensures forall i :: IsFirst(details, LooksLikePhone, i) ==> r == details[i]
  {
    PhoneSentinelIsNoPhone();
    FindOrSentinel(details, LooksLikePhone, NoPhone);
    OrElse(Find(details, LooksLikePhone), NoPhone)
  }

  /** `a[data-value="Website"]` */
  predicate IsWebsiteAffordance(l: Link) {
    l.dataValue == Some("Website")
  }

  /** `a[aria-label*="Website"]` */
  predicate HasWebsiteLabel(l: Link) {
    l.ariaLabel.Some? && Includes(l.ariaLabel.value, "Website")
  }

  /** `a.href && !a.href.includes('google.com/maps')` */
  predicate IsOutbound(l: Link) {
    Present(l.href) && !Includes(l.href.value, "google.com/maps")
  }

  /**
   * The anchor taken as the item's website: the first Website affordance, else the
   * first anchor labelled with "Website", else the first outbound anchor.
   */
  function WebsiteLink(links: seq<Link>): (r: Option<Link>)
    ensures forall i :: IsFirst(links, IsWebsiteAffordance, i) ==> r == Some(links[i])
    ensures NoneSatisfy(links, IsWebsiteAffordance) ==>
              forall i :: IsFirst(links, HasWebsiteLabel, i) ==> r == Some(links[i])
    ensures NoneSatisfy(links, IsWebsiteAffordance) && NoneSatisfy(links, HasWebsiteLabel) ==>
              (forall i :: IsFirst(links, IsOutbound, i) ==> r == Some(links[i]))
              && (NoneSatisfy(links, IsOutbound) ==> r == None)
  {
    match Find(links, IsWebsiteAffordance)
    case Some(l) => Some(l)
    case None =>
      match Find(links, HasWebsiteLabel)
      case Some(l) => Some(l)
      case None => Find(links, IsOutbound)
  }

  /** The record the probe builds for one item (the callback of `items.map`). */
  function ToRecord(item: Item): Record {
    var website := WebsiteLink(item.links);
    Record(
      OrElse(item.nameLabel, OrElse(item.nameText, NoName)),
      OrElse(item.rating, NoRating),
      ResolveAddress(item.details),
      ResolvePhone(item.details),
      if website.Some? then OrElse(website.value.href, NoWebsite) else NoWebsite)
  }

  /** The item's name resolved to something other than the name sentinel. */
  predicate Named(item: Item) {
    ToRecord(item).name != NoName
  }

  /** What the map-then-filter of the probe keeps of one item. */
  function Emit(item: Item): seq<Record> {
    if Named(item) then [ToRecord(item)] else []
  }

  /** `extractResults`: the records of the named items, in item order. */
  function Extract(items: seq<Item>): (r: seq<Record>)
    ensures |r| <= |items|
    ensures forall k :: 0 <= k < |r| ==> r[k].name != NoName
  {
    if items == [] then [] else Emit(items[0]) + Extract(items[1..])
  }

  /**
   * Every field of an emitted record is a non-empty string: either the sentinel of
   * that field or a value read from the item (a label or title text, the rating
   * text, a detail line, the href of one of its anchors).
   */
  lemma RecordShape(item: Item)
    ensures var r := ToRecord(item);
      && r.name != "" && r.rating != "" && r.address != "" && r.phone != "" && r.website != ""
      && (r.name == NoName || Some(r.name) == item.nameLabel || Some(r.name) == item.nameText)
      && (r.rating == NoRating || Some(r.rating) == item.rating)
      && (r.address == NoAddress || r.address in item.details)
      && (r.phone == NoPhone || r.phone in item.details)
      && (r.website == NoWebsite || exists l :: l in item.links && l.href == Some(r.website))
  {
    var w := WebsiteLink(item.links);
    if w.Some? {
      assert w.value in item.links by {
        FindIn(item.links, IsWebsiteAffordance);
        FindIn(item.links, HasWebsiteLabel);
        FindIn(item.links, IsOutbound);
      }
    }
  }

  /** What `find` returns is an element of the sequence. */
  lemma {:induction false} FindIn<T>(s: seq<T>, p: T -> bool)
    ensures Find(s, p).Some? ==> Find(s, p).value in s && p(Find(s, p).value)
  {
    if s != [] && !p(s[0]) {
      FindIn(s[1..], p);
    }
  }

  /** The probe distributes over concatenation: it keeps item order and looks at each item alone. */
  lemma {:induction false} ExtractAppend(a: seq<Item>, b: seq<Item>)
    ensures Extract(a + b) == Extract(a) + Extract(b)
  {
    if a == [] {
      assert a + b == b;
    } else {
      assert (a + b)[0] == a[0];
      assert (a + b)[1..] == a[1..] + b;
      ExtractAppend(a[1..], b);
      calc {
        Extract(a + b);
        Emit(a[0]) + Extract(a[1..] + b);
        Emit(a[0]) + (Extract(a[1..]) + Extract(b));
        (Emit(a[0]) + Extract(a[1..])) + Extract(b);
      }
    }
  }

  /** A record is emitted exactly when some item maps to it and its name is not the sentinel. */
  lemma {:induction false} ExtractMembers(items: seq<Item>, r: Record)
    ensures r in Extract(items) <==> r.name != NoName && exists i :: 0 <= i < |items| && ToRecord(items[i]) == r
  {
    if items != [] {
      ExtractMembers(items[1..], r);
      if r in Extract(items[1..]) {
        var i :| 0 <= i < |items[1..]| && ToRecord(items[1..][i]) == r;
        assert ToRecord(items[i + 1]) == r;
      }
      if r.name != NoName && exists i :: 0 <= i < |items| && ToRecord(items[i]) == r {
        var i :| 0 <= i < |items| && ToRecord(items[i]) == r;
        if i > 0 {
          assert ToRecord(items[1..][i - 1]) == r;
        }
      }
    }
  }

  /** A feed that only ever appends items never shrinks the probe's output. */
  lemma ExtractPrefix(a: seq<Item>, b: seq<Item>)
    requires a <= b
    ensures Extract(a) <= Extract(b)
  {
    assert b == a + b[|a|..];
    ExtractAppend(a, b[|a|..]);
  }

  /**
   * The two heuristics are evaluated independently: one detail line can be taken
   * as both the address and the phone number.
   */
  lemma AddressAndPhoneMayCoincide()
    ensures var r := ToRecord(Item(Some("Clinic"), None, ["+1 555-0100"], None, []));
      r.address == r.phone == "+1 555-0100"
  {
    var d := "+1 555-0100";
    assert IsDigit(d[1]);
    assert IsFirst([d], LooksLikeAddress, 0);
    assert IsFirst([d], LooksLikePhone, 0);
  }

  /**
   * A Website affordance is taken even when it has no href: the anchor, not its
   * href, is what the fallback chain tests, so the outbound link after it is ignored.
   */
  lemma AffordanceWithoutHrefHidesOtherLinks()
    ensures ToRecord(Item(Some("Clinic"), None, [], None,
              [Link(Some("Website"), None, None), Link(None, None, Some("https://clinic.example"))])).website
            == NoWebsite
  {
    var links := [Link(Some("Website"), None, None), Link(None, None, Some("https://clinic.example"))];
    assert IsFirst(links, IsWebsiteAffordance, 0);
  }
}
