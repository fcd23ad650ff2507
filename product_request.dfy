/** ProductRequest: the body of a create or modify product call, with its
    declarative field constraints, its defaults, and the product it carries
    while a service call is under way. */
module ProductRequests {
  import opened Common
  import opened Entities

  /** `@NotBlank`: present and not made only of characters at or below
      U+0020. */
  predicate NotBlank(s: Option<string>) {
    s.Some? && exists k :: 0 <= k < |s.value| && s.value[k] > ' '
  }

  /** `String.trim`: leading and trailing characters at or below U+0020
      removed. */
  function TrimStart(s: string): string {
    if |s| > 0 && s[0] <= ' ' then TrimStart(s[1..]) else s
  }

  function TrimEnd(s: string): string {
    if |s| > 0 && s[|s| - 1] <= ' ' then TrimEnd(s[..|s| - 1]) else s
  }

  function Trim(s: string): string {
    TrimEnd(TrimStart(s))
  }

  /** Trimming the front leaves nothing exactly when every character is
      blank, and otherwise starts at a non-blank character. */
  lemma {:induction false} TrimStartBlank(s: string)
    ensures TrimStart(s) == [] <==> forall k :: 0 <= k < |s| ==> s[k] <= ' '
    ensures TrimStart(s) != [] ==> TrimStart(s)[0] > ' '
  {
    if |s| > 0 && s[0] <= ' ' {
      var rest := s[1..];
      TrimStartBlank(rest);
      if forall k :: 0 <= k < |rest| ==> rest[k] <= ' ' {
        forall k | 0 <= k < |s| ensures s[k] <= ' ' {
          if k > 0 { assert s[k] == rest[k - 1]; }
        }
      }
      if forall k :: 0 <= k < |s| ==> s[k] <= ' ' {
        forall k | 0 <= k < |rest| ensures rest[k] <= ' ' {
          assert rest[k] == s[k + 1];
        }
      }
    }
  }

  /** Trimming the back of a string that starts non-blank leaves that
      first character. */
  lemma {:induction false} TrimEndKeepsHead(t: string)
    requires t != [] && t[0] > ' '
    ensures TrimEnd(t) != []
  {
    if t[|t| - 1] <= ' ' {
      var u := t[..|t| - 1];
      assert u[0] == t[0];
      TrimEndKeepsHead(u);
    }
  }

  /** `@NotBlank` is the validator's `trim().length() > 0` on a non-null
      value. */
  lemma NotBlankIsTrimmedNonEmpty(s: Option<string>)
    ensures NotBlank(s) <==> s.Some? && |Trim(s.value)| > 0
  {
    if s.Some? {
      TrimStartBlank(s.value);
      if TrimStart(s.value) != [] {
        TrimEndKeepsHead(TrimStart(s.value));
      }
    }
  }

  /** `@Size(max = n)`: a null value passes. */
  predicate SizeAtMost(s: Option<string>, n: nat) {
    s.None? || |s.value| <= n
  }

  /** `@NotNull @Positive`. */
  predicate PresentPositive(x: Option<int>) {
    x.Some? && x.value > 0
  }

  /** The constraints declared on the request's fields. There is none
      relating price to maxPrice. */
  predicate Conforms(d: ProductDetails, categoryId: Option<Id>) {
    && NotBlank(d.name) && SizeAtMost(d.name, 150)
    && NotBlank(d.codeUnit) && SizeAtMost(d.codeUnit, 150)
    && d.isActive.Some?
    && PresentPositive(d.maxPrice)
    && PresentPositive(d.price)
    && SizeAtMost(d.description, 250)
    && PresentPositive(categoryId)
  }

  /** What the validator checks, field by field, with `@NotBlank` read as
      `trim().length() > 0`. */
  predicate ValidatorAccepts(d: ProductDetails, categoryId: Option<Id>) {
    && d.name.Some? && |Trim(d.name.value)| > 0 && |d.name.value| <= 150
    && d.codeUnit.Some? && |Trim(d.codeUnit.value)| > 0 && |d.codeUnit.value| <= 150
    && d.isActive.Some?
    && d.maxPrice.Some? && d.maxPrice.value > 0
    && d.price.Some? && d.price.value > 0
    && (d.description.Some? ==> |d.description.value| <= 250)
    && categoryId.Some? && categoryId.value > 0
  }

  /** The declared constraints hold exactly when the validator accepts. */
  lemma ConformsMatchesValidator(d: ProductDetails, categoryId: Option<Id>)
    ensures Conforms(d, categoryId) <==> ValidatorAccepts(d, categoryId)
  {
    NotBlankIsTrimmedNonEmpty(d.name);
    NotBlankIsTrimmedNonEmpty(d.codeUnit);
  }

  /** A name made only of characters at or below U+0020 (spaces, tabs,
      line breaks, or nothing) is blank, so the request does not conform. */
  lemma BlankNameRejected(d: ProductDetails, categoryId: Option<Id>)
    requires d.name.Some? && forall k :: 0 <= k < |d.name.value| ==> d.name.value[k] <= ' '
    ensures Trim(d.name.value) == []
    ensures !Conforms(d, categoryId)
  {
    TrimStartBlank(d.name.value);
  }

  /** A price above the maximum price still conforms. */
  lemma PriceAboveMaxConforms()
    ensures Conforms(ProductDetails(Some("tea"), Some("kg"), Some(true), Some(10), Some(20), Some("")), Some(1))
  {
    assert "tea"[0] > ' ';
    assert "kg"[0] > ' ';
  }

  class ProductRequest {
    var name: Option<string>
    var codeUnit: Option<string>
    var isActive: Option<bool>
    var maxPrice: Option<int>
    var price: Option<int>
    var description: Option<string>
    var categoryId: Option<Id>
    var featureKeysId: seq<Id>
    var images: seq<Id>
    var files: seq<Id>
    /** The product being built or modified (a transient field). */
    var product: Option<Product>

    /** A request as deserialization starts it: description "" and empty
        id lists; everything else null. */
    constructor ()
      ensures name.None? && codeUnit.None? && isActive.None?
      ensures maxPrice.None? && price.None? && categoryId.None?
      ensures description == Some("")
      ensures featureKeysId == [] && images == [] && files == []
      ensures product.None?
    {
      name, codeUnit, isActive := None, None, None;
      maxPrice, price, categoryId := None, None, None;
      description := Some("");
      featureKeysId, images, files := [], [], [];
      product := None;
    }

    /** The scalar fields, in the shape of a product's details. */
    function Details(): ProductDetails
      reads this
    {
      ProductDetails(name, codeUnit, isActive, maxPrice, price, description)
    }

    /** The request passes bean validation. */
    predicate MeetsConstraints(): (ok: bool)
      reads this
      ensures ok <==> ValidatorAccepts(Details(), categoryId)
    {
      ConformsMatchesValidator(Details(), categoryId);
      Conforms(Details(), categoryId)
    }

    method PutProduct(p: Product)
      modifies this`product
      ensures product == Some(p)
    {
      product := Some(p);
    }

    /** compareProduct: the product conversion (given as `convert`) copies
        the request's scalar fields into the attached product; with no
        product attached nothing happens. */
    method CompareProduct(convert: (ProductDetails, ProductDetails) -> ProductDetails)
      modifies this`product
      ensures old(product).None? ==> product.None?
      ensures old(product).Some? ==>
        product == Some(old(product).value.(details := convert(old(product).value.details, Details())))
    {
      if product.None? {
        return;
      }
      product := Some(product.value.(details := convert(product.value.details, Details())));
    }
  }
}
