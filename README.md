# ExchangeBay data-access layer in Dafny

ExchangeBay is a small marketplace web application. Users register, then create
item listings and browse other users' listings. This project models its data-access
layer. It has two stores over one SQLite database:

- **The listing store** (`modules/listing.js`, class `Listing`) owns the `item` table.
  - `create` validates its four inputs in a fixed order. It then inserts one row and
    returns the row's AUTOINCREMENT id.
  - `getMetadata` looks up one listing by id. It adds the owner's username from the
    `user` table and a fixed placeholder swap list.
  - `getListings` returns every listing, with the owner's username and the swap list
    blanked. It rejects an empty table.
  - `getListingNamesFromUserID` checks the user id, then returns the names of that
    user's listings, or the empty sequence when there are none.
- **The user store** (`modules/user.js`, class `User`) owns the `user` table.
  - `register` runs five empty-field guards in a fixed order, then a duplicate-username
    check, then a duplicate-email check.
  - It then inserts one row holding a hash of the password.
  - The table declares no UNIQUE constraint. These checks are therefore the only thing
    that keeps usernames and emails unique. The model proves that they do, for usernames
    and emails compared as plain values. A value spelled like a column of the `user`
    table in any letter case, or like one of SQLite's rowid aliases, escapes the checks in the
  real program (see "## Left out").

Each table is a `seq` of rows, held in a class with an id counter. Each store method is a
Dafny method on that class. Its contract is tied to a specification function, and lemmas
state the properties of those functions.

Files:

- `js.dfy` (module `Js`) covers how JavaScript values reach the stores:
  - arguments are numbers or strings;
  - `isNaN`, and `String()`;
  - the integer that SQLite gives a value compared with an INTEGER column;
  - a chain of guards that throws at its first failure (`FirstFailure`);
  - a lookup of the first row satisfying a condition (`IndexWhere`).
- `accounts.dfy` (module `Accounts`) holds the `user` table and `register`.
- `listings.dfy` (module `Listings`) holds the `item` table and the four listing operations.

Modelling choices:

- **Rejections.** A rejected promise is `Err(message)` with the source's exact message text.
  A resolved one is `Ok(value)`.
- **Id arguments.** An id argument is `Num(n)` or `Str(s)`. It selects a row when the
  integer it denotes equals the row's key (`Matches`). That integer is the number itself,
  or the value of an integer literal such as `"3"` or `"-1"`. In the model the empty string
  and all other text select nothing. SQLite also converts other numeric text, such as
  `"3.0"`, `"3e0"` or `" 3"`, when comparing it with an INTEGER key. The model does not
  (see "## Left out").
  - `isNaN` treats `""` as numeric. So `create("")` passes the numeric guard and is
    reported as `user_id is empty`.
- **Password hash.** bcrypt's hash is an uninterpreted function `hash` fixed when the user
  store is made.
- **The user table seen from the listing store.** The listing store holds a reference to
  the user store of the same database and only reads its rows.

Where the code is defective or disagrees with its tests and schema description:

- `modules/user.js:48-52` declares `sql` and `data` twice, and counts a column `id` that
  the table does not have. The model reads these lines as intended: count the rows with
  that username, then count the rows with that email.
- The unit tests expect some messages the code does not produce:
  - `invalid user id provided` where the code says `non-numeric user id provided`;
  - `invalid user_id provided` where the code says `non-numeric user_id provided`;
  - `Username can't be empty` where the code says `missing username`.

  The model uses the code's messages.
- The unit tests expect `getListingNamesFromUserID(-1)` to reject. The code returns the
  names owned by user -1, which is the empty sequence on a real table.
- The schema description says a listing's owner must be an existing user. `create` does
  not check this, and neither does the model. `getMetadata` instead requires that the
  listing it finds has a known owner (`OwnerKnown`). Without one, the source fails
  reading `usernameRecord.username`.

## Model

| member | source | states |
|---|---|---|
| `Js.IntToString` | modules/listing.js:61 | the decimal text a number is quoted as is an integer literal that reads back as the same number |
| `Js.Display` | modules/listing.js:59-61 | the text a value is interpolated as: a number's decimal text, non-empty and reading back as the number; a string itself |
| `Js.IsNaN` | modules/listing.js:98-100 | `isNaN` of a value depends only on its string form: it holds exactly when that text is non-empty and not an optionally signed decimal integer, so a number is never NaN |
| `Js.CountWhere` | modules/listing.js:102-104 | a `COUNT` query is at most the table's size, and zero exactly when no row satisfies the condition |
| `Js.AsInteger` | modules/listing.js:169-178 | a value denotes an integer exactly when it passes both the `isNaN` guard and the emptiness guard on its string form; a number denotes itself |
| `Js.MatchesExactly` | modules/listing.js:59 | an id given as a number, or as its decimal string, selects the row with that key and no other |
| `Js.FirstFailure` | modules/user.js:43-53 | a chain of guards succeeds exactly when every guard passes; otherwise it throws the message of the first failing guard, every earlier guard having passed |
| `Js.IndexWhere` | modules/listing.js:62-63 | a `WHERE` lookup that takes the first row returned yields a row satisfying the condition, with none before it; it yields nothing exactly when no row does |
| `Accounts.UsernameTaken` | modules/user.js:48-50 | a username is taken exactly when the `COUNT` of rows with that username is non-zero |
| `Accounts.EmailTaken` | modules/user.js:51-53 | an email is taken exactly when the `COUNT` of rows with that email is non-zero |
| `Accounts.RegisterError` | modules/user.js:43-53 | `register` gets past its guards exactly when all five fields are non-empty and neither the username nor the email is stored |
| `Accounts.RegisterMissingField` | modules/user.js:43-47 | the first empty field, in the order username, password, forename, surname, email, is reported as `missing <field>`, whatever the table holds |
| `Accounts.RegisterConflict` | modules/user.js:48-53 | with all fields present, a stored username is rejected as `username "<u>" already in use` even when the email is stored too; a stored email is rejected as `email "<e>" already in use` only once the username is free |
| `Accounts.RegisterTwice` | modules/user.js:48-50 | registering the same details again after a successful registration fails on the username |
| `Accounts.RegisterKeepsUnique` | modules/user.js:48-56 | an insert that passes the guards keeps usernames pairwise distinct and emails pairwise distinct |
| `Accounts.RegisterAllKeepsUnique` | modules/user.js:41-61 | across any sequence of `register` calls, stored usernames stay pairwise distinct and so do stored emails |
| `Accounts.UsernameOf` | modules/listing.js:75-78 | the owner lookup finds a username exactly when some user row has that id, and the username is that row's |
| `Accounts.User.constructor` | modules/user.js:25 | a new user table is empty and satisfies the uniqueness and id invariant |
| `Accounts.User.Register` | modules/user.js:41-61 | a rejected call returns the first failing guard's message and leaves the table and id counter unchanged; a successful one returns `true` and appends exactly one row with a fresh id, `hash(pass)` as password and the other four fields verbatim; uniqueness of usernames and emails is preserved |
| `Listings.ErrorIfEmpty` | modules/listing.js:33-37 | an input is rejected exactly when it is empty, with the message `<name> is empty` |
| `Listings.CreateError` | modules/listing.js:169-176 | `create` gets past its guards exactly when the owner id denotes an integer and the name, description and image location are all non-empty |
| `Listings.CreateErrorOrder` | modules/listing.js:169-176 | a non-numeric owner id is reported as `non-numeric user_id provided` before any emptiness; then the first empty input, in the order user_id, item_name, item_description, img_location, is reported as `<field> is empty` |
| `Listings.CreateRejectsBadOwner` | modules/listing.js:169-173 | an empty owner id passes `isNaN` and is reported as `user_id is empty`; the owner id `test` is reported as non-numeric |
| `Listings.FindItem` | modules/listing.js:59-63 | the lookup by id finds the first row the id selects, with none before it, and finds nothing exactly when no row matches |
| `Listings.NotFound` | modules/listing.js:61 | the not-found message is `listing with ID "` and `" not found` around the id exactly as it is displayed |
| `Listings.Metadata` | modules/listing.js:57-86 | `getMetadata` is rejected with `listing with ID "<id>" not found` exactly when no row matches the id; otherwise it returns a matching row's owner, id, name, description and image location, the owner's username, and the placeholder swap list |
| `Listings.MetadataNotFound` | modules/listing.js:59-61 | the ids `-1`, `''` and `'test'` are not found in a table of positive ids, and each message quotes the id as given |
| `Listings.MetadataOfRow` | modules/listing.js:62-80 | in a table with increasing ids, an id that selects a row gets exactly that row's fields, its owner's username and the placeholder swap list |
| `Listings.CreateThenMetadata` | modules/listing.js:65-73 | round trip: after a row with a fresh id is appended, `getMetadata` of that id returns the row's owner, id, name, description and image location, whether the id is passed as a number or as its decimal string |
| `Listings.IsSummaryOf` | modules/listing.js:139-146 | the entry built for a row is exactly the row's id, name, description and image location, with no owner id and an empty username and swap list |
| `Listings.NamesOwnedBy` | modules/listing.js:102-113 | the names returned for a user are exactly the names of the rows that user owns; they are empty exactly when the user owns no row |
| `Listings.CreateThenNames` | modules/listing.js:106-113 | appending a row adds its name at the end of its owner's names and leaves every other user's names unchanged |
| `Listings.Listing.constructor` | modules/listing.js:21 | a new item table is empty and its AUTOINCREMENT counter starts at 1 |
| `Listings.Listing.CheckCreate` | modules/listing.js:169-176 | the imperative guard sequence of `create` rejects with exactly the message that `CreateError` specifies |
| `Listings.Listing.Create` | modules/listing.js:166-184 | a rejected call changes nothing; a successful one returns an id greater than every stored id, and appends exactly one row carrying that id, the owner id's integer and the three texts, leaving all earlier rows unchanged |
| `Listings.Listing.GetMetadata` | modules/listing.js:57-86 | the object built field by field is the one `Metadata` specifies, and the table is only read |
| `Listings.Listing.GetListings` | modules/listing.js:127-156 | an empty table is rejected with `no listings found`; otherwise there is exactly one entry per row, in table order, with the row's id, name, description and image location, no owner id, and an empty username and swap list |
| `Listings.Listing.GetListingNamesFromUserId` | modules/listing.js:94-120 | an empty id is rejected with `user_id is empty`, then a non-numeric one with `non-numeric user id provided`; any other id returns the names owned by the user it denotes, possibly none; the table is only read |
| `Listings.Listing.NamesFor` | modules/listing.js:102-115 | the count query and the collecting loop return exactly `NamesOwnedBy` of the table: the owned rows' names in table order, or the empty sequence when the user owns none |
| `Listings.CreateThenView` | unitTests/listing.spec.js:96-110 | creating a listing for a registered owner and viewing it by the returned id shows the owner, id, name, description, image location, owner's username and placeholder swap list |

## Left out

- `User.login` is not modelled. Its lookup query is malformed, and it depends on `bcrypt.compare`, a foreign call.
- `getUserDataFromID` and `querySearchTerm` are not modelled. The tests call them, but these modules do not define them.
- The web layer is not part of this model: routing, sessions, templates, uploads and redirects.
- Email sending is not part of this model. It is I/O over an SMTP transport.
- The `trade` table is not modelled. No operation of these modules uses it.
- The constructors that return promises are not modelled, nor is asynchrony. Each model constructor starts from an empty table, as a fresh `:memory:` database does.
- SQL text is not modelled: its interpolation, quoting and injection effects. Values are stored verbatim. For example, an id argument spelled like a column name (`item_id`) would be read by SQLite as that column, and the model does not capture that.
- Column lengths (`VARCHAR`) are not modelled. SQLite does not enforce them.
- The model's numbers are whole numbers. A string is numeric only if it is empty or an optionally signed decimal integer. JavaScript also accepts surrounding whitespace, fractions, exponents, hexadecimal and `Infinity`, and the model does not.
- `Listings.Metadata`: an id selects a row only when it is a number or an optionally signed decimal integer literal. SQLite converts any numeric text compared with the INTEGER key at `modules/listing.js:59` and `:62`, so `getMetadata('3.0')`, `getMetadata('3e0')` and `getMetadata(' 3')` return listing 3 in the program. The model rejects them as not found. The same holds for the owner id in `getListingNamesFromUserID`.
- `Js.IntToString`: numbers are unbounded integers. JavaScript prints a number of magnitude 1e21 or more in exponent notation, so `getMetadata(1e21)` rejects with `listing with ID "1e+21" not found` where the model quotes 22 digits. JavaScript numbers are exact only below 2^53, and SQLite ids are 64-bit; neither limit is modelled.
- `null` and `undefined` arguments are not modelled. The model takes every text input as a string.
- `Accounts.User.Register`: the hash is deterministic. bcrypt's random salt is not modelled, and nothing about the hash is assumed beyond its being a function of the password.
- `Accounts.RegisterAllKeepsUnique`: uniqueness holds only for usernames and emails that are not, in any letter case, names of `user` columns (`user_id`, `username`, `password`, `forename`, `surname`, `email`) or the rowid aliases `rowid`, `oid` and `_rowid_`. SQLite matches identifiers case-insensitively, even inside double quotes, so `register('EMAIL',…,'a@b')` followed by `register('EMAIL',…,'c@d')` also stores `EMAIL` twice. `register('rowid',…)` compares the username with the integer key, which never equals text. In the real program `username="email"` at `modules/user.js:48` compares two columns. So `register('email','p','f','s','a@b')` followed by `register('email','p','f','s','c@d')` passes both checks, and the table holds the username `email` twice. The model compares values, because SQL quoting is not modelled.
- Concurrency is not modelled. The race between `register`'s duplicate checks and its insert needs two interleaved requests, and every call here is sequential.
- Foreign keys are not modelled. `create` does not check that the owner exists.
- `Listings.Listing.GetMetadata`: requires that the listing it finds has an owner in the user table (`OwnerKnown`). The source crashes otherwise, and that crash is not modelled.
