/** `validateProductData` (backend/src/validators/product.ts): seven field
    validators run in a fixed order; the first one that fails throws
    BAD_USER_INPUT with its first Joi error. Messages name the field by its
    label, which Joi renders in double quotes. */
module ProductValidators {
  import opened Wrappers
  import opened Js
  import opened Joi

  /** The product fields as the validator receives them, before any typing. */
  datatype ProductInput = ProductInput(
    title: JsValue,
    description: JsValue,
    price: JsValue,
    discount: JsValue,
    stock: JsValue,
    categoryName: JsValue,
    brand: JsValue)

  /* The message tables. Each validator renders `{{#label}}` as its label
     in double quotes; only the error kinds its schema can raise are filled. */

  const TitleMessages := Messages(
    "\"title\" is required", "\"title\" must be a string", "\"title\" cannot be empty",
    "\"title\" must be at least 10 characters", "\"title\" must be at most 75 characters", "")

  const DescriptionMessages := Messages(
    "\"description\" is required", "\"description\" must be a string", "\"description\" cannot be empty",
    "\"description\" must be at least 100 characters", "", "")

  const PriceMessages := Messages("\"price\" is required", "\"price\" must be a number", "", "", "", "\"price\" must be a safe number")

  const DiscountMessages := Messages("\"discount\" is required", "\"discount\" must be a number", "", "", "", "\"discount\" must be a safe number")

  const StockMessages := Messages("\"stock\" is required", "\"stock\" must be a number", "", "", "", "\"stock\" must be a safe number")

  const CategoryNameMessages := Messages(
    "\"category name\" is required", "\"category name\" must be a string", "\"category name\" cannot be empty", "", "", "")

  const BrandMessages := Messages(
    "\"brand\" is required", "\"brand\" must be a string", "\"brand\" cannot be empty", "", "", "")

  function Check(r: Result<string>): Outcome {
    match r
    case Ok(_) => Pass()
    case Err(e) => Err(e)
  }

  const TitleMin: nat := 10
  const TitleMax: nat := 75
  const DescriptionMin: nat := 100

  /** A title is a string of 10 to 75 characters. */
  function ValidateTitle(v: JsValue): (r: Outcome)
    ensures r.Ok? <==> v.Str? && TitleMin <= |v.s| <= TitleMax
    ensures r.Err? ==> r.error.code == BadUserInput
    ensures v.Str? && 0 < |v.s| < TitleMin ==> r.error.message == "\"title\" must be at least 10 characters"
    ensures v.Str? && |v.s| > TitleMax ==> r.error.message == "\"title\" must be at most 75 characters"
  {
    Check(CheckString(v, Some(TitleMin), Some(TitleMax), NoRule, TitleMessages))
  }

  /** A description is a string of at least 100 characters, with no upper bound. */
  function ValidateDescription(v: JsValue): (r: Outcome)
    ensures r.Ok? <==> v.Str? && |v.s| >= DescriptionMin
    ensures r.Err? ==> r.error.code == BadUserInput
    ensures v.Str? && 0 < |v.s| < DescriptionMin ==> r.error.message == "\"description\" must be at least 100 characters"
  {
    Check(CheckString(v, Some(DescriptionMin), None, NoRule, DescriptionMessages))
  }

  /** Price, discount and stock take any safe number: no sign or integer check,
      only Joi's default safe-integer range. */
  function ValidatePrice(v: JsValue, convert: string -> Option<real>): (r: Outcome)
    ensures r.Ok? <==> IsNumber(v, convert)
    ensures r.Err? ==> r.error == Error(BadUserInput,
      if v.Undefined? then "\"price\" is required"
      else if NumberValue(v, convert).None? then "\"price\" must be a number"
      else "\"price\" must be a safe number")
  {
    CheckNumber(v, convert, PriceMessages)
  }

  function ValidateDiscount(v: JsValue, convert: string -> Option<real>): (r: Outcome)
    ensures r.Ok? <==> IsNumber(v, convert)
    ensures r.Err? ==> r.error == Error(BadUserInput,
      if v.Undefined? then "\"discount\" is required"
      else if NumberValue(v, convert).None? then "\"discount\" must be a number"
      else "\"discount\" must be a safe number")
  {
    CheckNumber(v, convert, DiscountMessages)
  }

  function ValidateStock(v: JsValue, convert: string -> Option<real>): (r: Outcome)
    ensures r.Ok? <==> IsNumber(v, convert)
    ensures r.Err? ==> r.error == Error(BadUserInput,
      if v.Undefined? then "\"stock\" is required"
      else if NumberValue(v, convert).None? then "\"stock\" must be a number"
      else "\"stock\" must be a safe number")
  {
    CheckNumber(v, convert, StockMessages)
  }

  /** The category name must be a non-empty string; its label is "category name". */
  function ValidateCategoryName(v: JsValue): (r: Outcome)
    ensures r.Ok? <==> v.Str? && v.s != ""
    ensures r.Err? ==> r.error.code == BadUserInput
    ensures v == Str("") ==> r.error.message == "\"category name\" cannot be empty"
  {
    Check(CheckString(v, None, None, NoRule, CategoryNameMessages))
  }

  function ValidateBrand(v: JsValue): (r: Outcome)
    ensures r.Ok? <==> v.Str? && v.s != ""
    ensures r.Err? ==> r.error.code == BadUserInput
    ensures v == Str("") ==> r.error.message == "\"brand\" cannot be empty"
  {
    Check(CheckString(v, None, None, NoRule, BrandMessages))
  }

  /** `validateProductData`: the field validators in order, stopping at the first failure. */
  function ValidateProductData(d: ProductInput, convert: string -> Option<real>): (r: Outcome)
    ensures r.Err? ==> r.error.code == BadUserInput
  {
    var _ :- ValidateTitle(d.title);
    var _ :- ValidateDescription(d.description);
    var _ :- ValidatePrice(d.price, convert);
    var _ :- ValidateDiscount(d.discount, convert);
    var _ :- ValidateStock(d.stock, convert);
    var _ :- ValidateCategoryName(d.categoryName);
    ValidateBrand(d.brand)
  }

  /** Whether a value is one Joi's number schema takes: a number, or a
      convertible string, within the safe-integer range. */
  predicate IsNumber(v: JsValue, convert: string -> Option<real>) {
    NumberValue(v, convert).Some? && Safe(NumberValue(v, convert).value)
  }

  /** The acceptance condition of a product, stated field by field. */
  predicate WellFormedProduct(d: ProductInput, convert: string -> Option<real>) {
    && d.title.Str? && 10 <= |d.title.s| <= 75
    && d.description.Str? && |d.description.s| >= 100
    && IsNumber(d.price, convert) && IsNumber(d.discount, convert) && IsNumber(d.stock, convert)
    && d.categoryName.Str? && d.categoryName.s != ""
    && d.brand.Str? && d.brand.s != ""
  }

  /** The validator accepts exactly the well-formed products. */
  lemma ValidateProductDataAcceptsExactly(d: ProductInput, convert: string -> Option<real>)
    ensures ValidateProductData(d, convert).Ok? <==> WellFormedProduct(d, convert)
  {
  }

  /** The field checks in the order the validator runs them. */
  function FieldChecks(d: ProductInput, convert: string -> Option<real>): seq<Outcome> {
    [ValidateTitle(d.title), ValidateDescription(d.description), ValidatePrice(d.price, convert),
     ValidateDiscount(d.discount, convert), ValidateStock(d.stock, convert),
     ValidateCategoryName(d.categoryName), ValidateBrand(d.brand)]
  }

  /** Only the first failing field is reported: the fields are checked in the
      order title, description, price, discount, stock, category name, brand. */
  lemma FirstFailingFieldIsReported(d: ProductInput, convert: string -> Option<real>)
    ensures ValidateProductData(d, convert) == FirstFailure(FieldChecks(d, convert))
  {
    var c := FieldChecks(d, convert);
    assert FirstFailure(c[6..]) == c[6] by { assert FirstFailure(c[6..][1..]) == Pass(); }
    assert FirstFailure(c[5..]) == if c[5].Err? then c[5] else FirstFailure(c[6..]) by { assert c[5..][1..] == c[6..]; }
    assert FirstFailure(c[4..]) == if c[4].Err? then c[4] else FirstFailure(c[5..]) by { assert c[4..][1..] == c[5..]; }
    assert FirstFailure(c[3..]) == if c[3].Err? then c[3] else FirstFailure(c[4..]) by { assert c[3..][1..] == c[4..]; }
    assert FirstFailure(c[2..]) == if c[2].Err? then c[2] else FirstFailure(c[3..]) by { assert c[2..][1..] == c[3..]; }
    assert FirstFailure(c[1..]) == if c[1].Err? then c[1] else FirstFailure(c[2..]) by { assert c[1..][1..] == c[2..]; }
  }

  /** Negative prices and stock, and fractional stock, pass validation. */
  lemma NumbersAreUnconstrained(d: ProductInput, convert: string -> Option<real>)
    requires d.title.Str? && |d.title.s| == 10 && d.description.Str? && |d.description.s| == 100
    requires d.categoryName == Str("c") && d.brand == Str("b")
    requires d.price == Num(-1.0) && d.discount == Num(-5.0) && d.stock == Num(0.5)
    ensures ValidateProductData(d, convert).Ok?
  {
  }

  /** A price beyond the safe-integer range is refused as unsafe, though a
      GraphQL `Float` can carry it. */
  lemma UnsafePriceIsRefused(convert: string -> Option<real>)
    ensures ValidatePrice(Num(10000000000000000.0), convert) == Err(Error(BadUserInput, "\"price\" must be a safe number"))
    ensures ValidatePrice(Num(MaxSafeInteger), convert).Ok?
    ensures ValidatePrice(Num(-MaxSafeInteger - 1.0), convert).Err?
  {
  }
}
