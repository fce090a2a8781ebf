/** The Product schema: the setters Mongoose applies when a product is cast
    (trimmed name and description, lower-cased category), the defaults
    (stock 0, active), and the validators (required fields, minimum values,
    the category enumeration). */
module Products {
  import opened Common

  datatype Category = Grocery | Cleaning | Oil | Beverages | Vegetables | Fruits

  function CategoryName(c: Category): string
  {
    match c
    case Grocery => "grocery"
    case Cleaning => "cleaning"
    case Oil => "oil"
    case Beverages => "beverages"
    case Vegetables => "vegetables"
    case Fruits => "fruits"
  }

  /** The category enumeration: a string is accepted exactly when it is the
      name of one of the six categories. */
  function ParseCategory(s: string): (r: Option<Category>)
    ensures r.Some? ==> CategoryName(r.value) == s
    ensures r.None? ==> forall c: Category :: CategoryName(c) != s
  {
    if s == "grocery" then Some(Grocery)
    else if s == "cleaning" then Some(Cleaning)
    else if s == "oil" then Some(Oil)
    else if s == "beverages" then Some(Beverages)
    else if s == "vegetables" then Some(Vegetables)
    else if s == "fruits" then Some(Fruits)
    else None
  }

  /** The characters `String.prototype.trim` strips: ECMAScript WhiteSpace
      (tab, vertical tab, form feed, the Zs space separators, no-break space,
      byte order mark) and LineTerminator. */
  predicate IsSpace(c: char)
  {
    || c == ' ' || c == '\t' || c == '\n' || c == '\r' || c == '\U{000B}' || c == '\U{000C}'
    || c == '\U{00A0}' || c == '\U{1680}' || ('\U{2000}' <= c <= '\U{200A}')
    || c == '\U{2028}' || c == '\U{2029}' || c == '\U{202F}' || c == '\U{205F}'
    || c == '\U{3000}' || c == '\U{FEFF}'
  }

  /** The index of the first character at or after `i` that is not white
      space, or `|s|` when there is none. */
  function SkipSpaces(s: string, i: nat): (n: nat)
    requires i <= |s|
    ensures i <= n <= |s|
    ensures forall k :: i <= k < n ==> IsSpace(s[k])
    ensures n == |s| || !IsSpace(s[n])
    decreases |s| - i
  {
    if i < |s| && IsSpace(s[i]) then SkipSpaces(s, i + 1) else i
  }

  /** The index just past the last character before `j` that is not white
      space, or 0 when there is none. */
  function SkipSpacesBack(s: string, j: nat): (n: nat)
    requires j <= |s|
    ensures n <= j
    ensures forall k :: n <= k < j ==> IsSpace(s[k])
    ensures n == 0 || !IsSpace(s[n - 1])
  {
    if j > 0 && IsSpace(s[j - 1]) then SkipSpacesBack(s, j - 1) else j
  }

  /** Drops leading white space: the result is the longest suffix that does
      not start with a space. */
  function TrimStart(s: string): (r: string)
    ensures |r| <= |s| && r == s[|s| - |r|..]
    ensures forall i :: 0 <= i < |s| - |r| ==> IsSpace(s[i])
    ensures r == [] || !IsSpace(r[0])
  {
    s[SkipSpaces(s, 0)..]
  }

  /** Drops trailing white space: the result is the longest prefix that does
      not end with a space. */
  function TrimEnd(s: string): (r: string)
    ensures |r| <= |s| && r == s[..|r|]
    ensures forall i :: |r| <= i < |s| ==> IsSpace(s[i])
    ensures r == [] || !IsSpace(r[|r| - 1])
  {
    s[..SkipSpacesBack(s, |s|)]
  }

  /** A prefix `r` of the suffix `t` of `s`, followed in `t` by white space
      only, is an infix of `s` followed by white space only. */
  lemma InfixOfSuffix(s: string, t: string, r: string)
    requires |t| <= |s| && t == s[|s| - |t|..]
    requires |r| <= |t| && r == t[..|r|]
    requires forall k :: |r| <= k < |t| ==> IsSpace(t[k])
    ensures var i := |s| - |t|; r == s[i..i + |r|] && forall k :: i + |r| <= k < |s| ==> IsSpace(s[k])
  {
    var i := |s| - |t|;
    forall k | i + |r| <= k < |s|
      ensures IsSpace(s[k])
    {
      assert s[k] == t[k - i];
    }
  }

  /** The schema's `trim: true` setter: the infix of `s` left after dropping
      the white space at both ends. */
  function Trim(s: string): (r: string)
    ensures r == [] || (!IsSpace(r[0]) && !IsSpace(r[|r| - 1]))
    ensures |r| <= |s|
    ensures var i := |s| - |TrimStart(s)|;
      && i + |r| <= |s| && r == s[i..i + |r|]
      && (forall k :: 0 <= k < i ==> IsSpace(s[k]))
      && (forall k :: i + |r| <= k < |s| ==> IsSpace(s[k]))
    ensures s == [] || (!IsSpace(s[0]) && !IsSpace(s[|s| - 1])) ==> r == s
  {
    var t := TrimStart(s);
    var r := TrimEnd(t);
    InfixOfSuffix(s, t, r);
    assert r == [] || r[0] == t[0];
    r
  }

  /** Trimming is idempotent, so a stored name is its own normal form. */
  lemma TrimIdempotent(s: string)
    ensures Trim(Trim(s)) == Trim(s)
  {
    var r := Trim(s);
    assert TrimStart(r) == r;
    assert TrimEnd(r) == r;
  }

  function LowerChar(c: char): (d: char)
  {
    if 'A' <= c <= 'Z' then (c as int + 32) as char else c
  }

  /** The schema's `lowercase: true` setter on ASCII letters. */
  function Lower(s: string): (r: string)
    ensures |r| == |s|
    ensures forall i :: 0 <= i < |s| ==> r[i] == LowerChar(s[i])
    ensures forall i :: 0 <= i < |r| ==> !('A' <= r[i] <= 'Z')
  {
    if |s| == 0 then [] else [LowerChar(s[0])] + Lower(s[1..])
  }

  lemma LowerIdempotent(s: string)
    ensures Lower(Lower(s)) == Lower(s)
  {
  }

  /** A product document as submitted: any field may be missing. */
  datatype ProductInput = ProductInput(
    name: Option<string>,
    price: Option<int>,
    category: Option<string>,
    image: Option<string>,
    description: Option<string>,
    stock: Option<int>,
    isActive: Option<bool>)

  /** A product as stored after a successful validation. */
  datatype Product = Product(
    name: string,
    price: int,
    category: Category,
    image: string,
    description: Option<string>,
    stock: int,
    isActive: bool)

  /** The schema paths a validation error can name. */
  datatype Field = NameField | PriceField | CategoryField | ImageField | StockField

  function MapTrim(s: Option<string>): Option<string>
  {
    if s.Some? then Some(Trim(s.value)) else None
  }

  lemma MapTrimIdempotent(s: Option<string>)
    ensures MapTrim(s).Some? ==> Trim(MapTrim(s).value) == MapTrim(s).value
  {
    if s.Some? { TrimIdempotent(s.value); }
  }

  /** Casting: setters on present strings, defaults on missing fields. */
  function Normalize(p: ProductInput): (r: ProductInput)
    ensures r.stock.Some? && r.isActive.Some?
    ensures p.stock.None? ==> r.stock == Some(0)
    ensures p.isActive.None? ==> r.isActive == Some(true)
    ensures r.name.Some? <==> p.name.Some?
    ensures r.name.Some? ==> r.name.value == [] || (!IsSpace(r.name.value[0]) && !IsSpace(r.name.value[|r.name.value| - 1]))
    ensures r.category.Some? ==> forall i :: 0 <= i < |r.category.value| ==> !('A' <= r.category.value[i] <= 'Z')
    ensures r.price == p.price && r.image == p.image
    ensures p.name.Some? ==> r.name == Some(Trim(p.name.value))
    ensures r.category == (if p.category.Some? then Some(Lower(p.category.value)) else None)
    ensures p.stock.Some? ==> r.stock == p.stock
    ensures p.isActive.Some? ==> r.isActive == p.isActive
    ensures r.description == MapTrim(p.description)
  {
    ProductInput(
      MapTrim(p.name),
      p.price,
      if p.category.Some? then Some(Lower(p.category.value)) else None,
      p.image,
      MapTrim(p.description),
      if p.stock.None? then Some(0) else p.stock,
      if p.isActive.None? then Some(true) else p.isActive)
  }

  /** Casting twice is casting once. */
  lemma NormalizeIdempotent(p: ProductInput)
    ensures Normalize(Normalize(p)) == Normalize(p)
  {
    if p.name.Some? { TrimIdempotent(p.name.value); }
    if p.description.Some? { TrimIdempotent(p.description.value); }
    if p.category.Some? { LowerIdempotent(p.category.value); }
  }

  /** The paths whose validators reject the cast document. */
  function Violations(p: ProductInput): (r: set<Field>)
    ensures NameField in r <==> !Present(MapTrim(p.name))
    ensures PriceField in r <==> p.price.None? || p.price.value < 0
    ensures CategoryField in r <==> p.category.None? || ParseCategory(Lower(p.category.value)).None?
    ensures ImageField in r <==> !Present(p.image)
    ensures StockField in r <==> p.stock.Some? && p.stock.value < 0
  {
    set f: Field | Fails(Normalize(p), f)
  }

  predicate Fails(n: ProductInput, f: Field)
  {
    match f
    case NameField => !Present(n.name)
    case PriceField => n.price.None? || n.price.value < 0
    case CategoryField => n.category.None? || ParseCategory(n.category.value).None?
    case ImageField => !Present(n.image)
    case StockField => n.stock.None? || n.stock.value < 0
  }

  /** The invariant of every stored product. */
  predicate ValidProduct(q: Product)
  {
    && q.name != [] && Trim(q.name) == q.name
    && q.price >= 0
    && q.image != []
    && q.stock >= 0
    && (q.description.Some? ==> Trim(q.description.value) == q.description.value)
  }

  /** `Product.create`: the stored product, or every path that failed. */
  function Validate(p: ProductInput): (r: Result<Product, set<Field>>)
    ensures r.Ok? <==> Violations(p) == {}
    ensures r.Err? ==> r.error == Violations(p)
    ensures r.Ok? ==> ValidProduct(r.value)
    ensures r.Ok? ==> && Some(r.value.name) == MapTrim(p.name)
                      && Some(r.value.price) == p.price
                      && CategoryName(r.value.category) == Lower(p.category.value)
                      && Some(r.value.image) == p.image
                      && r.value.description == MapTrim(p.description)
    ensures r.Ok? ==> r.value.stock == (if p.stock.Some? then p.stock.value else 0)
    ensures r.Ok? ==> r.value.isActive == (if p.isActive.Some? then p.isActive.value else true)
  {
    var n := Normalize(p);
    if Violations(p) != {} then Err(Violations(p))
    else
      assert NameField !in Violations(p) && CategoryField !in Violations(p);
      MapTrimIdempotent(p.name);
      MapTrimIdempotent(p.description);
      Ok(Product(n.name.value, n.price.value, ParseCategory(n.category.value).value,
                 n.image.value, n.description, n.stock.value, n.isActive.value))
  }

  function ToInput(q: Product): ProductInput
  {
    ProductInput(Some(q.name), Some(q.price), Some(CategoryName(q.category)), Some(q.image),
                 q.description, Some(q.stock), Some(q.isActive))
  }

  /** A string without upper-case letters is its own lower-case form. */
  lemma LowerFixed(s: string)
    requires forall i :: 0 <= i < |s| ==> !('A' <= s[i] <= 'Z')
    ensures Lower(s) == s
  {
  }

  lemma CategoryNameLower(c: Category)
    ensures Lower(CategoryName(c)) == CategoryName(c)
    ensures ParseCategory(CategoryName(c)) == Some(c)
  {
    LowerFixed(CategoryName(c));
  }

  /** Casting a valid stored product changes nothing. */
  lemma NormalizeStored(q: Product)
    requires ValidProduct(q)
    ensures Normalize(ToInput(q)) == ToInput(q)
  {
    CategoryNameLower(q.category);
  }

  /** Every valid stored product survives another round of casting and
      validation unchanged. */
  lemma StoredProductRevalidates(q: Product)
    requires ValidProduct(q)
    ensures Validate(ToInput(q)) == Ok(q)
  {
    var p := ToInput(q);
    NormalizeStored(q);
    CategoryNameLower(q.category);
    assert Violations(p) == {} by {
      forall f: Field
        ensures !Fails(p, f)
      {
      }
    }
    var r := Validate(p);
    assert CategoryName(r.value.category) == CategoryName(q.category);
    CategoryNameLower(r.value.category);
  }

  lemma LowerGrocery()
    ensures Lower("Grocery") == "grocery"
  {
    assert Lower("Grocery")[0] == 'g';
  }

  /** Trimming strips one space of padding on each side of a trimmed string. */
  lemma TrimStripsPadding(s: string)
    requires s != [] && !IsSpace(s[0]) && !IsSpace(s[|s| - 1])
    ensures Trim([' '] + s + [' ']) == s
  {
    var padded := [' '] + s + [' '];
    var i := |padded| - |TrimStart(padded)|;
    var r := Trim(padded);
    assert padded[1] == s[0] && padded[|s|] == s[|s| - 1];
    assert i <= 1;
    assert TrimStart(padded)[0] == padded[i];
    assert i == 1;
    assert 1 + |r| > |s|;
    assert r[|r| - 1] == padded[|r|];
    assert |r| == |s|;
    assert padded[1..|s| + 1] == s;
  }

  /** A capitalised category is lower-cased before the enumeration check,
      and missing stock and active flag take their defaults. */
  lemma CapitalisedCategoryAccepted()
    ensures Validate(ProductInput(Some("Sugar 2kg"), Some(310), Some("Grocery"), Some("sugar.jpg"), None, None, None))
         == Ok(Product("Sugar 2kg", 310, Grocery, "sugar.jpg", None, 0, true))
  {
    var p := ProductInput(Some("Sugar 2kg"), Some(310), Some("Grocery"), Some("sugar.jpg"), None, None, None);
    LowerGrocery();
    assert !IsSpace('S') && !IsSpace('g');
    assert Trim("Sugar 2kg") == "Sugar 2kg";
    var n := Normalize(p);
    assert n.category == Some("grocery");
    assert ParseCategory("grocery") == Some(Grocery);
    assert Violations(p) == {} by {
      forall f: Field
        ensures !Fails(n, f)
      {
      }
    }
    var r := Validate(p);
    assert CategoryName(r.value.category) == "grocery";
    CategoryNameLower(r.value.category);
  }
}
