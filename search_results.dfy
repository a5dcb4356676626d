/** Turning a space record from the spaces endpoint into the search-result
    record the search page lists. A property the record may lack is `None`;
    a string property counts as set only when it is non-empty, as JavaScript's
    `||` treats the empty string as false. */
module SearchResults {
  import opened Wrappers
  import opened JsStrings

  datatype Address = Address(
    address1: Option<string>,
    address2: Option<string>,
    city: Option<string>,
    state: Option<string>,
    postalCode: Option<string>)

  datatype CategoryAlias = CategoryAlias(title: Option<string>)
  datatype SpaceIndicator = SpaceIndicator(name: Option<string>, value: Option<string>)
  datatype Photo = Photo(url: Option<string>)

  datatype Space = Space(
    id: Option<int>,
    name: Option<string>,
    address: Address,
    categoryAliases: Option<seq<CategoryAlias>>,
    avgRating: Option<real>,
    phone: Option<string>,
    indicators: Option<seq<SpaceIndicator>>,
    photos: Option<seq<Photo>>,
    url: Option<string>,
    yelpUrl: Option<string>)

  datatype Filter = Filter(name: Option<string>)

  datatype SearchResult = SearchResult(
    id: string,
    name: string,
    category: string,
    address: string,
    averageRating: Option<real>,
    phoneNumber: string,
    filters: seq<Filter>,
    imageUrl: Option<string>,
    url: Option<string>)

  predicate Truthy(s: Option<string>) {
    s.Some? && s.value != ""
  }

  /** `s || ''`. */
  function OrEmpty(s: Option<string>): (r: string)
    ensures r == "" <==> !Truthy(s)
    ensures Truthy(s) ==> r == s.value
  {
    if Truthy(s) then s.value else ""
  }

  /** The parts joined by single spaces. */
  function JoinWithSpaces(parts: seq<string>): string
    requires parts != []
  {
    if |parts| == 1 then parts[0] else parts[0] + " " + JoinWithSpaces(parts[1..])
  }

  /** `s.split(' ')`: the pieces between spaces, empty ones included. */
  function SplitOnSpaces(s: string): (r: seq<string>)
    ensures r != []
    ensures forall i :: 0 <= i < |r| ==> ' ' !in r[i]
  {
    if s == [] then [""]
    else if s[0] == ' ' then [""] + SplitOnSpaces(s[1..])
    else
      var rest := SplitOnSpaces(s[1..]);
      [[s[0]] + rest[0]] + rest[1..]
  }

  lemma {:induction false} SplitWord(word: string, tail: string)
    requires ' ' !in word
    ensures SplitOnSpaces(word + tail) == [word + SplitOnSpaces(tail)[0]] + SplitOnSpaces(tail)[1..]
  {
    if word != [] {
      assert (word + tail)[0] == word[0] && (word + tail)[1..] == word[1..] + tail;
      SplitWord(word[1..], tail);
      assert [word[0]] + (word[1..] + SplitOnSpaces(tail)[0]) == word + SplitOnSpaces(tail)[0];
    } else {
      var r := SplitOnSpaces(tail);
      assert word + tail == tail && word + r[0] == r[0];
      assert [r[0]] + r[1..] == r;
    }
  }

  /** Splitting undoes joining when no part holds a space. */
  lemma {:induction false} SplitJoin(parts: seq<string>)
    requires parts != []
    requires forall i :: 0 <= i < |parts| ==> ' ' !in parts[i]
    ensures SplitOnSpaces(JoinWithSpaces(parts)) == parts
  {
    if |parts| == 1 {
      SplitWord(parts[0], "");
      assert parts[0] + "" == parts[0];
    } else {
      var rest := JoinWithSpaces(parts[1..]);
      SplitJoin(parts[1..]);
      assert parts[0] + " " + rest == parts[0] + (" " + rest);
      SplitWord(parts[0], " " + rest);
      assert (" " + rest)[0] == ' ' && (" " + rest)[1..] == rest;
      assert SplitOnSpaces(" " + rest) == [""] + parts[1..];
      assert parts[0] + "" == parts[0];
    }
  }

  function AddressParts(a: Address): (r: seq<string>)
    ensures |r| == 5
  {
    [OrEmpty(a.address1), OrEmpty(a.address2), OrEmpty(a.city), OrEmpty(a.state), OrEmpty(a.postalCode)]
  }

  /** The stitched address: line 1, line 2, city, state and zipcode, each `''` when unset. */
  function StitchAddress(a: Address): string {
    JoinWithSpaces(AddressParts(a))
  }

  /** The address is always its five parts with one space between each: when no part
      holds a space, splitting on spaces gives them back, and an address with no
      parts set is exactly four spaces. */
  lemma StitchAddressParts(a: Address)
    ensures (forall i :: 0 <= i < 5 ==> ' ' !in AddressParts(a)[i]) ==>
      SplitOnSpaces(StitchAddress(a)) == AddressParts(a)
    ensures (forall i :: 0 <= i < 5 ==> AddressParts(a)[i] == "") ==> StitchAddress(a) == "    "
  {
    if forall i :: 0 <= i < 5 ==> ' ' !in AddressParts(a)[i] {
      SplitJoin(AddressParts(a));
    }
  }

  /** `(categories[0] || {}).title || ''`. */
  function FirstCategoryTitle(categories: seq<CategoryAlias>): (r: string)
    ensures r != "" <==> categories != [] && Truthy(categories[0].title)
    ensures r != "" ==> categories[0].title == Some(r)
  {
    if categories == [] then "" else OrEmpty(categories[0].title)
  }

  /** `((photos || [])[0] || {}).url`. */
  function FirstPhotoUrl(photos: Option<seq<Photo>>): (r: Option<string>)
    ensures r.Some? ==> photos.Some? && photos.value != [] && photos.value[0].url == r
    ensures photos.None? || photos.value == [] ==> r.None?
  {
    if photos.None? || photos.value == [] then None else photos.value[0].url
  }

  /** `` `${id}` ``, with a missing id written as "undefined". */
  function IdText(id: Option<int>): (r: string)
    ensures id.Some? ==> ParseInt(r) == id
  {
    match id
    case Some(n) => ParseIntToString(n); IntToString(n)
    case None => "undefined"
  }

  function FormatSearchResult(space: Space): (r: SearchResult)
    ensures space.id.Some? ==> ParseInt(r.id) == space.id
    ensures r.name == OrEmpty(space.name) && r.phoneNumber == OrEmpty(space.phone)
    ensures r.category != "" <==>
      space.categoryAliases.Some? && space.categoryAliases.value != [] && Truthy(space.categoryAliases.value[0].title)
    ensures r.averageRating.Some? <==> space.avgRating.Some? && space.avgRating.value != 0.0
    ensures r.averageRating.Some? ==> r.averageRating == space.avgRating
    ensures |r.filters| == |space.indicators.GetOr([])|
    ensures forall i :: 0 <= i < |r.filters| ==> r.filters[i].name == space.indicators.GetOr([])[i].name
    ensures r.url == if Truthy(space.url) then space.url else space.yelpUrl
    ensures r.address == StitchAddress(space.address)
    ensures (forall i :: 0 <= i < 5 ==> ' ' !in AddressParts(space.address)[i]) ==>
      SplitOnSpaces(r.address) == AddressParts(space.address)
    ensures r.category == FirstCategoryTitle(space.categoryAliases.GetOr([]))
    ensures r.category != "" ==> space.categoryAliases.value[0].title == Some(r.category)
    ensures r.imageUrl == FirstPhotoUrl(space.photos)
    ensures r.imageUrl.Some? ==> space.photos.Some? && space.photos.value != []
                                 && space.photos.value[0].url == r.imageUrl
  {
    StitchAddressParts(space.address);
    var categories := space.categoryAliases.GetOr([]);
    var indicators := space.indicators.GetOr([]);
    SearchResult(
      IdText(space.id),
      OrEmpty(space.name),
      FirstCategoryTitle(categories),
      StitchAddress(space.address),
      if space.avgRating.Some? && space.avgRating.value != 0.0 then space.avgRating else None,
      OrEmpty(space.phone),
      seq(|indicators|, i requires 0 <= i < |indicators| => Filter(indicators[i].name)),
      FirstPhotoUrl(space.photos),
      if Truthy(space.url) then space.url else space.yelpUrl)
  }

  /** A space with only an id and an address yields empty strings, no filters and an
      address of four spaces. */
  lemma BareSpace(id: int)
    ensures var r := FormatSearchResult(Space(Some(id), None, Address(None, None, None, None, None),
                                              None, None, None, None, None, None, None));
      r.name == "" && r.category == "" && r.address == "    " && r.filters == [] &&
      r.averageRating == None && r.imageUrl == None && r.url == None && ParseInt(r.id) == Some(id)
  {
    StitchAddressParts(Address(None, None, None, None, None));
  }
}
