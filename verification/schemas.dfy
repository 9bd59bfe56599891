/** The input validators of lib/schemas.ts, as functions from a form's
    fields to the list of issues the schema library reports (in field
    order; an empty list means the parse succeeds). String lengths are
    counted in characters. The e-mail check of the schema library is not
    part of this model and is passed in as a predicate. */
module Schemas {
  import opened Common
  import opened Utils

  const NAME_MSG := "Name must be atleast 3 characters"
  const SLUG_MSG := "Slug must be atleast 3 characters"
  const CATEGORY_MSG := "Category must be atleast 3 characters"
  const BRAND_MSG := "Brand must be atleast 3 characters"
  const DESCRIPTION_MSG := "Description must be atleast 3 characters"
  const IMAGES_MSG := "Product must have atleast 1 image"
  const PRICE_MSG := "Price must have exactly 2 decimal places"
  const EMAIL_MSG := "Email is invalid"
  const PASSWORD_MSG := "Password must be atleast 8 characters"
  const MISMATCH_MSG := "Passwords do not match"

  /** The regular expression `^\d+(\.\d{2})?$`: one or more digits,
      optionally a point and exactly two digits. */
  predicate CurrencyPattern(t: string)
  {
    || (|t| >= 1 && AllDigits(t))
    || (|t| >= 4 && t[|t| - 3] == '.' && AllDigits(t[..|t| - 3]) && AllDigits(t[|t| - 2..]))
  }

  /** The `currency` refinement, applied to `numText`, the text the runtime
      prints for `Number(val)`. */
  predicate Currency(numText: string)
  {
    CurrencyPattern(FormatNumberWithDecimal(numText))
  }

  /** The pattern on a formatted price: the whole part must be digits and
      the fraction exactly two digits. */
  lemma PatternOfFormatted(whole: string, f: string)
    requires '.' !in whole && '.' !in f && |f| >= 2
    ensures CurrencyPattern(whole + "." + f) <==> |whole| >= 1 && AllDigits(whole) && |f| == 2 && AllDigits(f)
  {
    var t := whole + "." + f;
    assert t[|whole|] == '.' && !IsDigit(t[|whole|]);
    if |f| > 2 {
      assert t[|t| - 3] == f[|f| - 3];
    } else {
      assert t[..|t| - 3] == whole;
      assert t[|t| - 2..] == f;
    }
  }

  /** The fraction the formatter writes: two digits exactly when the input
      has no fraction or a fraction of at most two digits. */
  lemma FormattedFraction(numText: string) returns (f: string)
    ensures var parts := Split(numText, '.');
            && FormatNumberWithDecimal(numText) == parts[0] + "." + f
            && '.' !in f && |f| >= 2
            && (|f| == 2 && AllDigits(f) <==> |parts| == 1 || (|parts[1]| <= 2 && AllDigits(parts[1])))
  {
    var parts := Split(numText, '.');
    if |parts| > 1 && parts[1] != "" {
      f := PadEnd(parts[1], 2, '0');
      PadEndAvoids(parts[1], 2, '0', '.');
      if |parts[1]| == 1 {
        assert f == [parts[1][0], '0'];
      }
    } else {
      f := "00";
    }
  }

  /** Currency accepts exactly a non-empty run of digits, optionally
      followed by a point and at most two digits (a missing fraction is
      padded, so only three or more fraction digits or a non-digit fail). */
  lemma CurrencyIff(numText: string)
    ensures var parts := Split(numText, '.');
            Currency(numText) <==>
              && |parts[0]| >= 1 && AllDigits(parts[0])
              && (|parts| == 1 || (|parts[1]| <= 2 && AllDigits(parts[1])))
  {
    var f := FormattedFraction(numText);
    PatternOfFormatted(Split(numText, '.')[0], f);
  }

  /** A price with three or more fraction digits is rejected. */
  lemma ThreeFractionDigitsRejected(whole: string, dec: string)
    requires '.' !in whole && '.' !in dec && |dec| >= 3
    ensures !Currency(whole + "." + dec)
  {
    SplitAfterPrefix(whole, '.', dec);
    NoSeparator(dec, '.');
    assert whole + "." + dec == whole + ['.'] + dec;
    CurrencyIff(whole + "." + dec);
  }

  /** A negative value is rejected: its text starts with '-', not a digit. */
  lemma NegativeRejected(numText: string)
    requires |numText| >= 1 && numText[0] == '-'
    ensures !Currency(numText)
  {
    CurrencyIff(numText);
    assert Split(numText, '.')[0][0] == '-';
  }

  /** The fields of the product form that the product schema checks. The
      price is the number-to-string text of the submitted price. */
  datatype ProductInput = ProductInput(
    name: string, slug: string, category: string, brand: string,
    description: string, stock: int, images: seq<string>, isFeatured: bool,
    banner: Option<string>, priceText: string)

  /** The issue of one field rule: none when the rule holds. */
  function Check(holds: bool, issue: Issue): (r: seq<Issue>)
    ensures issue in r <==> !holds
    ensures forall x :: x in r ==> x == issue
  {
    if holds then [] else [issue]
  }

  /** Every issue the length rules of `insertProductSchema` can report. */
  function ProductFieldRules(): seq<Issue>
  {
    [Issue(Name, NAME_MSG), Issue(Slug, SLUG_MSG), Issue(Category, CATEGORY_MSG),
     Issue(Brand, BRAND_MSG), Issue(Description, DESCRIPTION_MSG), Issue(Images, IMAGES_MSG)]
  }

  /** The rules on name, slug and category. */
  function NamingIssues(p: ProductInput): (r: seq<Issue>)
    ensures r == [] <==> |p.name| >= 3 && |p.slug| >= 3 && |p.category| >= 3
    ensures Issue(Name, NAME_MSG) in r <==> |p.name| < 3
    ensures Issue(Slug, SLUG_MSG) in r <==> |p.slug| < 3
    ensures Issue(Category, CATEGORY_MSG) in r <==> |p.category| < 3
    ensures forall x :: x in r ==> x == Issue(Name, NAME_MSG) || x == Issue(Slug, SLUG_MSG) || x == Issue(Category, CATEGORY_MSG)
  {
    Check(|p.name| >= 3, Issue(Name, NAME_MSG))
    + Check(|p.slug| >= 3, Issue(Slug, SLUG_MSG))
    + Check(|p.category| >= 3, Issue(Category, CATEGORY_MSG))
  }

  /** The rules on brand, description and images. */
  function DetailIssues(p: ProductInput): (r: seq<Issue>)
    ensures r == [] <==> |p.brand| >= 3 && |p.description| >= 3 && |p.images| >= 1
    ensures Issue(Brand, BRAND_MSG) in r <==> |p.brand| < 3
    ensures Issue(Description, DESCRIPTION_MSG) in r <==> |p.description| < 3
    ensures Issue(Images, IMAGES_MSG) in r <==> |p.images| == 0
    ensures forall x :: x in r ==> x == Issue(Brand, BRAND_MSG) || x == Issue(Description, DESCRIPTION_MSG) || x == Issue(Images, IMAGES_MSG)
  {
    Check(|p.brand| >= 3, Issue(Brand, BRAND_MSG))
    + Check(|p.description| >= 3, Issue(Description, DESCRIPTION_MSG))
    + Check(|p.images| >= 1, Issue(Images, IMAGES_MSG))
  }

  /** The length rules of `insertProductSchema`, in field order. */
  function ProductFieldIssues(p: ProductInput): (r: seq<Issue>)
    ensures r == [] <==>
      && |p.name| >= 3 && |p.slug| >= 3 && |p.category| >= 3 && |p.brand| >= 3
      && |p.description| >= 3 && |p.images| >= 1
    ensures Issue(Name, NAME_MSG) in r <==> |p.name| < 3
    ensures Issue(Slug, SLUG_MSG) in r <==> |p.slug| < 3
    ensures Issue(Category, CATEGORY_MSG) in r <==> |p.category| < 3
    ensures Issue(Brand, BRAND_MSG) in r <==> |p.brand| < 3
    ensures Issue(Description, DESCRIPTION_MSG) in r <==> |p.description| < 3
    ensures Issue(Images, IMAGES_MSG) in r <==> |p.images| == 0
    ensures forall x :: x in r ==> x in ProductFieldRules()
  {
    NamingIssues(p) + DetailIssues(p)
  }

  /** `insertProductSchema`: every field below three characters, an empty
      image list and a price that fails `currency` each give their own
      issue; the parse succeeds exactly when none does. */
  function InsertProductIssues(p: ProductInput): (r: seq<Issue>)
    ensures r == [] <==>
      && |p.name| >= 3 && |p.slug| >= 3 && |p.category| >= 3 && |p.brand| >= 3
      && |p.description| >= 3 && |p.images| >= 1 && Currency(p.priceText)
    ensures Issue(Name, NAME_MSG) in r <==> |p.name| < 3
    ensures Issue(Slug, SLUG_MSG) in r <==> |p.slug| < 3
    ensures Issue(Category, CATEGORY_MSG) in r <==> |p.category| < 3
    ensures Issue(Brand, BRAND_MSG) in r <==> |p.brand| < 3
    ensures Issue(Description, DESCRIPTION_MSG) in r <==> |p.description| < 3
    ensures Issue(Images, IMAGES_MSG) in r <==> |p.images| == 0
    ensures Issue(Price, PRICE_MSG) in r <==> !Currency(p.priceText)
    ensures forall x :: x in r ==> x in ProductFieldRules() || x == Issue(Price, PRICE_MSG)
  {
    ProductFieldIssues(p) + Check(Currency(p.priceText), Issue(Price, PRICE_MSG))
  }

  /** `signInFormSchema`: a valid e-mail and a password of eight or more
      characters. */
  function SignInIssues(email: string, password: string, isEmail: string -> bool): (r: seq<Issue>)
    ensures r == [] <==> isEmail(email) && |password| >= 8
    ensures Issue(Email, EMAIL_MSG) in r <==> !isEmail(email)
    ensures Issue(Password, PASSWORD_MSG) in r <==> |password| < 8
    ensures forall x :: x in r ==> x == Issue(Email, EMAIL_MSG) || x == Issue(Password, PASSWORD_MSG)
  {
    Check(isEmail(email), Issue(Email, EMAIL_MSG))
    + Check(|password| >= 8, Issue(Password, PASSWORD_MSG))
  }

  datatype SignUpInput = SignUpInput(name: string, email: string, password: string, confirmPassword: string)

  /** Every issue `signUpFormSchema` can report. */
  function SignUpRules(): seq<Issue>
  {
    [Issue(Name, NAME_MSG), Issue(Email, EMAIL_MSG), Issue(Password, PASSWORD_MSG),
     Issue(ConfirmPassword, PASSWORD_MSG), Issue(ConfirmPassword, MISMATCH_MSG)]
  }

  /** `signUpFormSchema`: field rules, then the object-level refinement that
      the two passwords are equal, reported on `confirmPassword`. The
      refinement runs even when a field rule failed, since every field is
      a string. */
  function SignUpIssues(u: SignUpInput, isEmail: string -> bool): (r: seq<Issue>)
    ensures r == [] <==>
      |u.name| >= 3 && isEmail(u.email) && |u.password| >= 8 && |u.confirmPassword| >= 8
      && u.password == u.confirmPassword
    ensures Issue(Name, NAME_MSG) in r <==> |u.name| < 3
    ensures Issue(Email, EMAIL_MSG) in r <==> !isEmail(u.email)
    ensures Issue(Password, PASSWORD_MSG) in r <==> |u.password| < 8
    ensures Issue(ConfirmPassword, PASSWORD_MSG) in r <==> |u.confirmPassword| < 8
    ensures Issue(ConfirmPassword, MISMATCH_MSG) in r <==> u.password != u.confirmPassword
    ensures forall x :: x in r ==> x in SignUpRules()
  {
    Check(|u.name| >= 3, Issue(Name, NAME_MSG))
    + Check(isEmail(u.email), Issue(Email, EMAIL_MSG))
    + Check(|u.password| >= 8, Issue(Password, PASSWORD_MSG))
    + Check(|u.confirmPassword| >= 8, Issue(ConfirmPassword, PASSWORD_MSG))
    + Check(u.password == u.confirmPassword, Issue(ConfirmPassword, MISMATCH_MSG))
  }
}
