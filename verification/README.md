# E-commerce backend core, modelled in Dafny

This project models the business logic of a GraphQL e-commerce backend
(Node, Prisma) and of its front end's form validation. The modelled parts are:

- the buyer's cart: `addToCart` reserves stock when an item is added, and `removeFromCart` returns it;
- the seller's catalogue: create, update and delete scoped to the owning seller, category lookup by name, and `searchProducts`;
- the address book: ownership checks, one default address per user, and addresses referenced by orders cannot be deleted;
- the wishlist and the role policy of its resolvers;
- `requireAuth`, the role guards and the role-gated sub-fields of a user;
- `getToken`'s cookie/`Bearer` extraction;
- the Joi validators for products and sign-up, and the front end's rule engine (`validateField`, `validateForm`).

The database is one immutable `Store.Db` value: a finite map from id to row per table, plus `nextId`, the next value of the id sequence.
- An operation returns a `Step`: the database after the call and either a result or an `Error` with the GraphQL error code the source throws.
- A failed insert, such as a duplicate unique key or a missing foreign row, becomes the error that the source's `catch` produces.
- Store.Valid states what every reachable database satisfies:
  - ids are below the sequence;
  - no two users share a cart id (the cart's primary key);
  - the (user, product) pair of the wishlist is unique.

Module layout:

| module | what it covers |
|---|---|
| `Wrappers` | results and errors |
| `Js` | JavaScript string semantics |
| `Listing` | ordering, paging and table scans |
| `Auth`, `Token` | guards and token extraction |
| `Store` | the database |
| `Catalog`, `Search`, `SellerProducts` | products |
| `Carts` | the cart |
| `Addresses` | the address book |
| `Wishlist` | the wishlist |
| `Users` | user resolvers and sign-up |
| `Joi`, `ProductValidators`, `UserValidators` | the backend validators |
| `FormValidation` | the front end's rule engine |

## Model

| member | source | states |
|---|---|---|
| Wrappers.FirstFailure | backend/src/validators/product.ts:5-13 | the first failing check of a sequence is the outcome; success iff every check succeeds |
| Js.Trim | backend/src/services/token.service.ts:40 | `trim` yields the slice after the leading white space, with only white space dropped after it and none left at either end |
| Js.TrimEmptyIffBlank | frontend/src/utils/validation.ts:19-24 | a string trims to "" exactly when every character is white space |
| Listing.Sort | backend/src/services/prisma/product.service.ts:129-137 | `orderBy` yields a permutation of the rows, sorted by the key in the requested direction |
| Listing.Window | backend/src/services/prisma/product.service.ts:135-136 | `skip`/`take` keeps the `take` rows from position `skip`, fewer at the end, none past it |
| Listing.WindowsAdjoin | backend/src/services/prisma/product.service.ts:99 | two windows of width `take`, one after the other, make the window of width `2*take` |
| Auth.RequireAuth | backend/src/middlewares/auth.middleware.ts:3-10 | succeeds iff a user is in the context, returns exactly that user, else UNAUTHENTICATED "Authentication required" |
| Auth.RequireAuthIgnoresRole | backend/src/middlewares/auth.middleware.ts:3-10 | a signed-in user passes whatever the role |
| Auth.RequireAdmin | backend/src/middlewares/permissions.middleware.ts:4-9 | succeeds iff the role is Admin, else FORBIDDEN |
| Auth.RequireBuyer | backend/src/middlewares/permissions.middleware.ts:11-16 | succeeds iff the role is Buyer, else FORBIDDEN |
| Auth.RequireSeller | backend/src/middlewares/permissions.middleware.ts:18-23 | succeeds iff the role is Seller, else FORBIDDEN |
| Auth.ExactlyOneRoleGuardPasses | backend/src/middlewares/permissions.middleware.ts:4-23 | for every signed-in user exactly one of the three guards passes |
| Auth.AuthWithRole | backend/src/controllers/seller/product.controller.ts:12-13 | `requireAuth` then a role guard admits exactly a signed-in user with that role, returning them; otherwise UNAUTHENTICATED or FORBIDDEN as appropriate |
| Auth.Guard | backend/src/controllers/buyer/wishlist.controller.ts:10-37 | a resolver's guard succeeds iff its requirement (anyone, signed in, or one role) admits the caller |
| Token.GetToken | backend/src/services/token.service.ts:36-44 | a truthy cookie wins; else a header starting with "Bearer" yields the rest trimmed; else nothing |
| Token.BearerRoundTrip | backend/src/services/token.service.ts:39-40 | extracting from `"Bearer " + t` gives back `t` for any trimmed `t` |
| Token.CookieTakesPrecedence | backend/src/services/token.service.ts:37-38 | a non-empty cookie is returned whatever the header |
| Token.NoSpaceNeeded | backend/src/services/token.service.ts:39-40 | "Bearerabc" yields "abc" |
| Token.EmptyCookieFallsThrough | backend/src/services/token.service.ts:37 | an empty cookie behaves like no cookie |
| Token.PrefixIsCaseSensitive | backend/src/services/token.service.ts:39 | a header starting with "bearer" yields nothing |
| Catalog.FindProduct | backend/src/services/prisma/product.service.ts:57-65 | the product with that id, or NOT_FOUND "Product not found" |
| Catalog.CreateProduct | backend/src/services/prisma/product.service.ts:5-22 | adds exactly one active product with the given fields, seller and category, changing no other row and returning nothing; a rejected insert is INTERNAL_SERVER_ERROR with no change |
| Catalog.UpdateProduct | backend/src/services/prisma/product.service.ts:38-51 | succeeds iff the product exists and belongs to the seller, replacing it with its patched form; otherwise INTERNAL_SERVER_ERROR with no change |
| Catalog.DeleteProduct | backend/src/services/prisma/product.service.ts:24-36 | succeeds iff the product exists and belongs to the seller, removing exactly it; otherwise INTERNAL_SERVER_ERROR with no change |
| Catalog.FindProductsByCategory | backend/src/services/prisma/product.service.ts:67-71 | exactly the active products of the category |
| Catalog.FindProductsByUser | backend/src/services/prisma/product.service.ts:53-55 | exactly the products of the seller |
| Catalog.CreateThenFind | backend/src/services/prisma/product.service.ts:5-22 | a created product is found, active, owned by its seller, and listed under its category |
| Catalog.EmptyPatchIsIdentity | backend/src/services/prisma/product.service.ts:38-51 | an update with no fields changes nothing |
| Catalog.UpdateChangesOnlyPatchedFields | backend/src/services/prisma/product.service.ts:40-43 | fields absent from the data keep their values; owner, category and active flag never change |
| Catalog.CreateProductPreservesValid | backend/src/services/prisma/product.service.ts:5-22 | creation keeps the store invariant |
| Catalog.UpdateProductPreservesValid | backend/src/services/prisma/product.service.ts:38-51 | updating keeps the store invariant |
| Catalog.DeleteProductPreservesValid | backend/src/services/prisma/product.service.ts:24-36 | deletion keeps the store invariant |
| Carts.FindCartByUser | backend/src/services/prisma/cart.service.ts:4-10 | the user's single cart, or NOT_FOUND "Cart is not found" |
| Carts.CreateCart | backend/src/services/prisma/cart.service.ts:12-21 | adds one cart for a user who has none; any rejected insert is INTERNAL_SERVER_ERROR with no change |
| Carts.CreateThenFindCart | backend/src/services/prisma/cart.service.ts:4-21 | after `createCart`, `findCartByUser` finds the new cart, and before it found none |
| Carts.CreateCartPreservesValid | backend/src/services/prisma/cart.service.ts:4-21 | creating a cart keeps the store consistent, in particular no two users share a cart id |
| Carts.FindCartItems | backend/src/services/prisma/cart.service.ts:23-25 | exactly the items of the cart, possibly none |
| Carts.CreateCartItem | backend/src/services/prisma/cartItem.service.ts:4-16 | inserts one item; a missing product or cart is INTERNAL_SERVER_ERROR with no change |
| Carts.IsItemBelongToUser | backend/src/services/buyer/cartItem.service.ts:4-17 | the item iff it exists and sits in the user's cart, else NOT_FOUND "Cart item not found"; read-only |
| Carts.ForeignItemLooksMissing | backend/src/services/buyer/cartItem.service.ts:7-15 | an item in another user's cart gets the same answer as a missing item |
| Carts.CanAddToCart | backend/src/services/buyer/cart.service.ts:28-33 | accepts iff the product is active and `quantity <= stock`, else INTERNAL_SERVER_ERROR "Process can not be done" |
| Carts.AddToCart | backend/src/services/buyer/cart.service.ts:9-16 | succeeds iff the user has a cart, the product exists, is active and holds the quantity (and the id is free); on success, exactly one new item is added and the product's stock drops by the quantity, staying non-negative; NOT_FOUND iff no cart or no product; a failure changes nothing |
| Carts.RemoveFromCart | backend/src/services/buyer/cart.service.ts:18-25 | succeeds iff the item is the caller's; deletes exactly it, puts its quantity back and returns the caller's cart; otherwise NOT_FOUND and no change |
| Carts.AddToCartConservesUnits | backend/src/services/buyer/cart.service.ts:13-14 | stock plus reserved quantity of every product is unchanged by `addToCart` |
| Carts.RemoveFromCartConservesUnits | backend/src/services/buyer/cart.service.ts:22-23 | stock plus reserved quantity of every product is unchanged by `removeFromCart` |
| Carts.AddThenRemoveRestores | backend/src/services/buyer/cart.service.ts:9-25 | removing the item just added restores the database, apart from the id sequence |
| Carts.AddToCartNeverMerges | backend/src/services/buyer/cart.service.ts:13 | adding a product twice gives two distinct items |
| Carts.AddToCartPreservesValid | backend/src/services/buyer/cart.service.ts:9-16 | `addToCart` keeps the store invariant |
| Carts.RemoveFromCartPreservesValid | backend/src/services/buyer/cart.service.ts:18-25 | `removeFromCart` keeps the store invariant |
| Search.Page | backend/src/services/prisma/product.service.ts:132-137 | a non-negative `take` returns the rows from `skip` on, at most `take` of them; a negative one the `-take` rows ending `skip` rows before the end, in order; nothing when `skip` passes the end |
| Search.SearchProducts | backend/src/services/prisma/product.service.ts:73-148 | every hit is a matching product, full or projected to id/title/brand; at most `limit` hits; an unknown column or order, or a negative skip, is rejected |
| Search.OrderedRowsMatch | backend/src/services/prisma/product.service.ts:101-134 | the ordering holds only matching products, sorted by the requested column |
| Search.OrderedIdsDistinct | backend/src/services/prisma/product.service.ts:101-134 | no product appears twice in the ordering |
| Search.OrderedIsComplete | backend/src/services/prisma/product.service.ts:101-134 | every matching product is in the ordering |
| Search.SearchIsWindowOfOrdering | backend/src/services/prisma/product.service.ts:99-137 | the result is the ordering's slice from `(page-1)*limit` of length `limit` |
| Search.ConsecutivePagesAdjoin | backend/src/services/prisma/product.service.ts:99 | page p+1 starts where page p ends |
| Search.SuggestionsProjectFullResult | backend/src/services/prisma/product.service.ts:139-145 | the suggestion list is the full result projected to `{id, title, brand}`, in the same order |
| Search.PriceBoundsInclusive | backend/src/services/prisma/product.service.ts:117-123 | a price equal to both bounds matches |
| Search.InactiveNeverMatches | backend/src/services/prisma/product.service.ts:101-103 | inactive products are never returned |
| Search.QueryIgnoresCase | backend/src/services/prisma/product.service.ts:105-111 | lower-casing the query does not change the match |
| Search.TitleMatchesItself | backend/src/services/prisma/product.service.ts:105-111 | a product matches a query equal to its own title |
| Joi.CheckString | backend/src/validators/product.ts:15-38 | a Joi string accepts iff a non-empty string within the bounds satisfying the rule; the message is chosen by the first failing check: required, type, empty |
| Joi.CheckNumber | backend/src/validators/product.ts:63-82 | a Joi number accepts exactly the numbers and convertible strings within ±(2^53 − 1); otherwise "is required", "must be a number", or the `number.unsafe` message |
| Joi.ShortStringReportsMin | backend/src/validators/product.ts:15-38 | a too-short non-empty string reports the minimum-length message |
| ProductValidators.ValidateTitle | backend/src/validators/product.ts:15-38 | accepts iff a string of 10..75 characters; messages for too short and too long |
| ProductValidators.ValidateDescription | backend/src/validators/product.ts:40-61 | accepts iff a string of at least 100 characters, with no upper bound |
| ProductValidators.ValidatePrice | backend/src/validators/product.ts:63-82 | accepts any safe number; otherwise "\"price\" is required", "\"price\" must be a number" or "\"price\" must be a safe number" |
| ProductValidators.ValidateDiscount | backend/src/validators/product.ts:84-103 | accepts any safe number; otherwise the discount's required, type or unsafe-number message |
| ProductValidators.ValidateStock | backend/src/validators/product.ts:105-124 | accepts any safe number; otherwise the stock's required, type or unsafe-number message |
| ProductValidators.ValidateCategoryName | backend/src/validators/product.ts:126-145 | accepts iff a non-empty string |
| ProductValidators.ValidateBrand | backend/src/validators/product.ts:147-166 | accepts iff a non-empty string |
| ProductValidators.ValidateProductData | backend/src/validators/product.ts:5-13 | every rejection is BAD_USER_INPUT |
| ProductValidators.ValidateProductDataAcceptsExactly | backend/src/validators/product.ts:5-166 | the product passes iff every field is well formed, the numbers within the safe-integer range |
| ProductValidators.FirstFailingFieldIsReported | backend/src/validators/product.ts:5-13 | the error is that of the first failing field in the order title, description, price, discount, stock, category, brand |
| ProductValidators.NumbersAreUnconstrained | backend/src/validators/product.ts:63-124 | a negative price and discount and a fractional stock pass |
| ProductValidators.UnsafePriceIsRefused | backend/src/validators/product.ts:63-82 | a price of 10^16 is refused with "\"price\" must be a safe number"; 2^53 − 1 passes and −2^53 fails |
| UserValidators.ValidateName | backend/src/validators/user.ts:87-110 | accepts iff a string of 6..50 characters; rejections are BAD_USER_INPUT |
| UserValidators.ValidateEmail | backend/src/validators/user.ts:14-35 | accepts iff a non-empty string that the email check accepts |
| UserValidators.ValidatePassword | backend/src/validators/user.ts:37-60 | accepts iff a string of 6..50 characters |
| UserValidators.ValidateConfirmPassword | backend/src/validators/user.ts:62-85 | accepts iff the password is a non-empty string and the confirmation equals it; a mismatch reports "passwords don't match" |
| UserValidators.CheckPhoneNumber | backend/src/validators/user.ts:139-159 | accepts iff the pattern holds, a country is recognised, and the number is valid for it; yields the normalised number; every failure has one message |
| UserValidators.ValidatePhoneNumber | backend/src/validators/user.ts:112-136 | accepts iff a string that `checkPhoneNumber` accepts; a string off the pattern gets the pattern's message |
| UserValidators.PatternRecheckIsRedundant | backend/src/validators/user.ts:112-145 | after the Joi pattern, `checkPhoneNumber` can fail only in the library calls |
| UserValidators.ValidateSignUp | backend/src/validators/user.ts:6-12 | rejections are BAD_USER_INPUT; the form is returned unchanged or with only its phone normalised |
| UserValidators.ValidateSignUpAcceptsExactly | backend/src/validators/user.ts:6-12 | sign-up passes iff every field is acceptable, and then the phone is the normalised number |
| UserValidators.FirstFailingCheckIsReported | backend/src/validators/user.ts:6-12 | name, email, phone are checked in that order and the first error is reported |
| UserValidators.PhoneOverwrittenBeforePasswordCheck | backend/src/validators/user.ts:6-12 | a good phone with a bad password is rejected, yet the phone has already been overwritten |
| SellerProducts.CheckCategoryExist | backend/src/services/seller/product.service.ts:4-8 | the id at the first index of the name, or an uncoded "This category is not found" |
| SellerProducts.CategoryLookupFindsNamedCategory | backend/src/controllers/seller/product.controller.ts:16-19 | with parallel lists built from the table, the id found names a category of that exact name |
| SellerProducts.FirstMatchingCategoryWins | backend/src/services/seller/product.service.ts:6 | with duplicate names the first match's id is returned |
| SellerProducts.ResolveCategory | backend/src/controllers/seller/product.controller.ts:16-19 | a resolved id names an existing category with that name |
| SellerProducts.ExistingCategoryResolves | backend/src/controllers/seller/product.controller.ts:16-19 | every existing category's name resolves |
| SellerProducts.UnknownCategoryIsRefused | backend/src/controllers/seller/product.controller.ts:16-19 | a name no category has is refused |
| SellerProducts.AddProduct | backend/src/controllers/seller/product.controller.ts:11-21 | succeeds iff a seller sends valid data naming an existing category (and the rows the insert needs exist); then exactly one product is inserted, with the given fields, owned by the caller, in that category, active, nothing else changed; a failure changes nothing |
| SellerProducts.AddProductSucceeds | backend/src/controllers/seller/product.controller.ts:11-21 | a seller with valid input naming an existing category creates a product they own |
| SellerProducts.InvalidProductCreatesNothing | backend/src/controllers/seller/product.controller.ts:15 | invalid input is rejected and creates nothing |
| SellerProducts.AddProductAsWritten | backend/src/controllers/seller/product.controller.ts:14 | as written the resolver always fails and changes nothing |
| SellerProducts.AddProductAsWrittenNeverCreates | backend/src/controllers/seller/product.controller.ts:14 | where the intended resolver creates a product, the written one throws a TypeError |
| SellerProducts.DeleteProductAs | backend/src/controllers/seller/product.controller.ts:23-28 | only a seller deletes, and only their own product; on success exactly that product is removed and returned, every other product and table kept |
| SellerProducts.UpdateProductField | backend/src/controllers/seller/product.controller.ts:31-69 | only a seller updates, only their own product, and exactly the one field |
| SellerProducts.UpdatesAreNotValidated | backend/src/controllers/seller/product.controller.ts:56-67 | negative stock and an empty title are stored, although creation would refuse the title |
| Addresses.FindAddressByOrder | backend/src/services/prisma/address.service.ts:4-22 | the order's address, or NOT_FOUND "Address not found for order" |
| Addresses.FindAddressByUser | backend/src/services/prisma/address.service.ts:24-32 | exactly the user's addresses |
| Addresses.FindAddressById | backend/src/services/prisma/address.service.ts:34-57 | the address iff it exists and is the user's; NOT_FOUND if missing, UNAUTHORIZED if another user's |
| Addresses.CreateAddress | backend/src/services/prisma/address.service.ts:59-97 | adds one address with the given fields; a default first clears the user's other defaults, and that clear survives a failed insert, which removes and adds no address |
| Addresses.UpdateAddress | backend/src/services/prisma/address.service.ts:99-138 | only the owner's existing address changes, only the supplied fields; a new default clears the user's other defaults and no one else's |
| Addresses.DeleteAddress | backend/src/services/prisma/address.service.ts:140-171 | removes exactly the owner's address unless an order references it (BAD_REQUEST); failures change nothing |
| Addresses.CreatedDefaultIsOnlyDefault | backend/src/services/prisma/address.service.ts:68-84 | a new default address is the user's only default |
| Addresses.CreateWithoutDefaultTouchesNothingElse | backend/src/services/prisma/address.service.ts:84 | a non-default creation stores `is_default = false` and changes no other address |
| Addresses.UpdatedDefaultIsOnlyDefault | backend/src/services/prisma/address.service.ts:111-128 | an address made default is the user's only default; other users' addresses are untouched |
| Addresses.CreateAddressKeepsOneDefault | backend/src/services/prisma/address.service.ts:68-90 | creation keeps at most one default per user |
| Addresses.UpdateAddressKeepsOneDefault | backend/src/services/prisma/address.service.ts:111-128 | updating keeps at most one default per user |
| Addresses.DeleteAddressKeepsOneDefault | backend/src/services/prisma/address.service.ts:140-171 | deletion keeps at most one default per user |
| Addresses.CreateAddressPreservesValid | backend/src/services/prisma/address.service.ts:59-97 | creation keeps the store invariant |
| Addresses.UpdateAddressPreservesValid | backend/src/services/prisma/address.service.ts:99-138 | updating keeps the store invariant |
| Addresses.DeleteAddressPreservesValid | backend/src/services/prisma/address.service.ts:140-171 | deletion keeps the store invariant |
| Addresses.ForeignAddressIsUntouchable | backend/src/services/prisma/address.service.ts:99-171 | another user's address cannot be updated or deleted, and the failure comes before any write |
| Wishlist.AddToWishlist | backend/src/services/prisma/wishlist.service.ts:3-25 | adds the pair iff it is absent and both rows exist; otherwise the database throws and nothing changes |
| Wishlist.RemoveFromWishlist | backend/src/services/prisma/wishlist.service.ts:27-35 | deletes exactly the pair's entries and reports success iff there were any |
| Wishlist.GetUserWishlist | backend/src/services/prisma/wishlist.service.ts:37-61 | only the user's entries, newest first |
| Wishlist.GetUserWishlistIsComplete | backend/src/services/prisma/wishlist.service.ts:38-41 | every entry of the user is listed |
| Wishlist.AddThenIsIn | backend/src/services/prisma/wishlist.service.ts:3-73 | after a successful add the pair is in the wishlist, and it was not before |
| Wishlist.DuplicateAddFails | backend/src/services/prisma/wishlist.service.ts:4-8 | adding a present pair fails and changes nothing |
| Wishlist.RemoveThenNotIn | backend/src/services/prisma/wishlist.service.ts:27-73 | after a remove the pair is absent and every other pair is as before |
| Wishlist.RemoveAbsentIsNoop | backend/src/services/prisma/wishlist.service.ts:27-35 | removing an absent pair changes nothing and reports `false` |
| Wishlist.AddToWishlistPreservesValid | backend/src/services/prisma/wishlist.service.ts:3-25 | adding keeps the pair unique |
| Wishlist.RemoveFromWishlistPreservesValid | backend/src/services/prisma/wishlist.service.ts:27-35 | removing keeps the store invariant |
| Wishlist.AddToWishlistResolver | backend/src/controllers/buyer/wishlist.controller.ts:10-15 | any signed-in caller adds for their own id |
| Wishlist.RemoveFromWishlistResolver | backend/src/controllers/buyer/wishlist.controller.ts:17-22 | any signed-in caller removes for their own id |
| Wishlist.GetUserWishlistResolver | backend/src/controllers/buyer/wishlist.controller.ts:24-29 | only buyers, and only their own list |
| Wishlist.IsInWishlistResolver | backend/src/controllers/buyer/wishlist.controller.ts:31-37 | only buyers, and only about their own list |
| Wishlist.SellerCanWriteButNotRead | backend/src/controllers/buyer/wishlist.controller.ts:10-37 | a seller may add and remove but not list or test membership |
| Users.SubFieldOwner | backend/src/controllers/user/user.controller.ts:50-108 | a sub-field is admitted iff its requirement holds (addresses: anyone, products: sellers, the rest: buyers), and then reads the parent user |
| Users.UserAddresses | backend/src/controllers/user/user.controller.ts:50-53 | the parent's addresses, without any check |
| Users.UserProducts | backend/src/controllers/user/user.controller.ts:77-86 | the parent's products, for sellers only |
| Users.UserCart | backend/src/controllers/user/user.controller.ts:88-97 | the parent's cart, for buyers only |
| Users.SubFieldPolicy | backend/src/controllers/user/user.controller.ts:50-108 | an admin is refused every gated sub-field; a seller gets products but not orders; a buyer gets the cart but not products |
| Users.BuyerReadsParentsCart | backend/src/controllers/user/user.controller.ts:89-96 | any buyer reads any parent user's cart |
| Users.UpdateName | backend/src/controllers/user/user.controller.ts:17-22 | succeeds iff a signed-in caller with a stored row sends a valid name; then only the caller's name changes; otherwise the guard's, the validator's or the update's error, with no change |
| Users.UpdateEmail | backend/src/controllers/user/user.controller.ts:23-28 | succeeds iff a signed-in caller with a stored row sends a valid email; then only the caller's email changes; otherwise the guard's, the validator's or the update's error, with no change |
| Users.UpdatePhoneAsWritten | backend/src/controllers/user/user.controller.ts:29-34 | as written: succeeds iff a signed-in caller with a stored row sends a valid number, and then stores the raw argument |
| Users.UpdatePhone | backend/src/controllers/user/user.controller.ts:29-34 | corrected: succeeds iff a signed-in caller with a stored row sends a valid number; the caller's row gets the normalised number that validation returns, and nothing else changes |
| Users.UpdatePhoneStoresRawNumber | backend/src/controllers/user/user.controller.ts:32-33 | for "+20 100" the written update stores the spaced form, the corrected one "+20100" |
| Users.UpdatePassword | backend/src/controllers/user/user.controller.ts:35-42 | succeeds, writing the hash of the new password, iff the signed-in user exists and the current password verifies; otherwise "User is not found" or "Password is not correct" |
| Users.UpdatedPasswordVerifies | backend/src/controllers/user/user.controller.ts:35-42 | when stored hashes verify against their passwords, after a change the new password verifies |
| Users.UpdateNameTouchesOnlyTheCaller | backend/src/controllers/user/user.controller.ts:17-22 | without a caller the name update is refused and the store is unchanged; with one, no other user's row changes |
| Users.UpdateEmailTouchesOnlyTheCaller | backend/src/controllers/user/user.controller.ts:23-28 | without a caller the email update is refused and the store is unchanged; with one, no other user's row changes |
| Users.CreateUser | backend/src/services/prisma/user.service.ts:26-41 | inserts one user with the hashed password iff the email is free; otherwise "Error in creating user account" and no change |
| Users.Signup | backend/src/controllers/user/signup.controller.ts:8-17 | an invalid form is refused with the validator's error and no change; success implies a valid form and inserts exactly the account (validated fields, hashed password, role) and its cart; a later failure leaves at most the account behind |
| Users.SignupCreatesCart | backend/src/controllers/user/signup.controller.ts:12-13 | a successful sign-up leaves the new user with a cart and the normalised phone |
| FormValidation.FieldErrors | frontend/src/utils/validation.ts:28-49 | one message per failing check, at positions in the order min length, max length, pattern, custom |
| FormValidation.ValidateField | frontend/src/utils/validation.ts:15-52 | valid iff no errors iff the rule accepts; a blank value gives only the required message, and only when required |
| FormValidation.LengthErrorsExclusive | frontend/src/utils/validation.ts:29-36 | with min at most max, at most one length message |
| FormValidation.ValidateForm | frontend/src/utils/validation.ts:131-139 | one result per rule, computed from the form's value at that key |
| FormValidation.IsFormValid | frontend/src/utils/validation.ts:142-144 | valid iff every result is valid |
| FormValidation.GetFormErrors | frontend/src/utils/validation.ts:147-153 | every field's errors appear, and nothing else |
| FormValidation.GetFormErrorsConcatenates | frontend/src/utils/validation.ts:147-153 | errors are concatenated in field order |
| FormValidation.ValidIffNoErrors | frontend/src/utils/validation.ts:142-153 | for consistent results, valid iff the error list is empty |
| FormValidation.FormValidIffEveryFieldAccepts | frontend/src/utils/validation.ts:131-153 | a validated form is valid iff it has no errors iff every rule accepts its field |
| FormValidation.MalformedEmailReportedTwice | frontend/src/utils/validation.ts:56-64 | a malformed email gets both "Invalid format" and the custom message |
| FormValidation.PasswordCustom | frontend/src/utils/validation.ts:69-83 | passes iff at least 8 characters with a lower-case letter, an upper-case letter and a digit |
| FormValidation.PasswordAcceptedIff | frontend/src/utils/validation.ts:66-84 | a password is valid iff non-blank, long enough, and with all three character kinds |
| FormValidation.ShortPasswordReportedTwice | frontend/src/utils/validation.ts:68-72 | a short password gets the length message and the custom message |
| FormValidation.NameAcceptedIff | frontend/src/utils/validation.ts:85-96 | a name is valid iff non-blank, 2..50 letters and spaces |
| FormValidation.StripSeparators | frontend/src/utils/validation.ts:101 | every separator is removed and every other character kept, as many times as it occurs |
| FormValidation.StripCountsDigits | frontend/src/utils/validation.ts:99-101 | stripping a well-formed number without a plus sign leaves only digits |
| FormValidation.PhoneAcceptedIff | frontend/src/utils/validation.ts:97-107 | a phone number is valid iff non-blank, of the right shape, with at least 10 characters besides separators |

## Left out

- I/O and the outside world:
  - JWT signing and verification, cookies and `process.env` (token.service.ts apart from `getToken`) are not modelled;
  - bcrypt is the `hash`/`verify` parameters of `Users.UpdatePassword` and `Users.CreateUser`;
  - clocks are the `now` parameters;
  - console logging is dropped.
- Joi's email rule, Joi's string-to-number conversion and the `phone` library are opaque parameters: `isEmail`, `convert`, `PhoneLibrary`.
- Joi.CheckNumber: the conversion's own precision round-trip check, which also reports `number.unsafe` for a numeric string, is part of the `convert` parameter; the safe-integer range check on the converted number is modelled.
- Lengths are counted in characters, whereas JavaScript's `length` counts UTF-16 code units.
- Case-insensitive matching folds ASCII letters only.
- The Int columns' 32-bit range and floating-point prices are not modelled: ids, stock and quantities are unbounded integers, and prices are reals. Joi's safe-integer bound on the validated numbers is modelled.
- The Prisma schema is not part of this model. The referential actions of deletes are unknown, so `Catalog.DeleteProduct` and `Addresses.DeleteAddress` remove only their own row.
- Cart items referencing a deleted product are not cleaned up.
- Concurrency: each service call is one atomic step, except where the source itself writes twice.
  - `Addresses.CreateAddress` shows its non-atomic default clearing.
  - `Carts.AddToCart` shows its two writes as one step.
- The front end's `price` and `quantity` rules (`parseFloat`, `parseInt`) are not modelled. Nor are values that are not strings, on which `value.trim` would throw.
- Checkout, orders, reviews, payments and `deleteUserResolver` are not modelled; they have no logic in the modelled files.
- Imports that the controller files name but the services do not export are modelled as their evident intent. These are `updateUser`, `deleteUser`, `validateName`, `validatePhoneNumber` and `checkPassword`.
  - `Users.WriteUser` stands for `updateUser`.
  - Its "record not found" failure is a thrown error with an invented message.
- `deleteCartItems` is imported by services/buyer/cart.service.ts but defined in none of the service modules. `Carts.DeleteCartItems` is a plain delete.
- The sign-up controller under `auth/`, which creates no cart, is not modelled. `Users.Signup` follows the one under `user/`.
- Addresses.UpdateAddress: the source's INTERNAL_SERVER_ERROR path (a failing update after the ownership check) cannot occur in the model, since the update of an existing row always succeeds.
- Resolver wiring (controllers/index.ts, the GraphQL schema) is not modelled. Each resolver is a function of the context and its arguments.
- Search.Page models a negative `limit` as Prisma's "take from the end". That is Prisma's documented behaviour; the application code does not rely on it.
- Listing.Sort orders string columns by code point and keeps ties in ascending id order. The database orders text by its collation and leaves the order of ties unspecified, so `searchProducts` sorted by title, brand or description can list rows differently.
- Wishlist.GetUserWishlistIsComplete states membership of every entry, not that each entry is listed exactly once.
- FormValidation.GetFormErrors states membership in both directions; the order is stated by `FormValidation.GetFormErrorsConcatenates`.
- FormValidation.ValidateForm takes the rules as a sequence in the caller's order. JavaScript's `Object.entries` and `Object.values` list integer-like keys first, in ascending order, and never repeat a key. So for rule names that are integer-like or repeated, the model's result order, and hence the order of `getFormErrors`, can differ from the source's.

## Findings

| source | as written | input that shows it | evidently intended | confidence | as-written member | corrected member |
|---|---|---|---|---|---|---|
| backend/src/controllers/seller/product.controller.ts:14 | the product input is read from `context.data`, which the server's context function never sets, so `validateProductData` dereferences `undefined` | any signed-in seller calling `addProduct` with valid data | the input comes from the resolver's arguments, and a valid product is created | high; not executed | SellerProducts.AddProductAsWritten | SellerProducts.AddProduct |
| backend/src/controllers/user/user.controller.ts:32-33 | the phone update validates the number but stores the raw argument, dropping the normalised form `validatePhoneNumber` returns | "+20 100" with a library that normalises it to "+20100": sign-up would store "+20100", the update stores "+20 100" | store the normalised number, as sign-up does | medium; not executed | Users.UpdatePhoneAsWritten | Users.UpdatePhone |
