# HabitQuest data-access layer in Dafny

HabitQuest is a habit-tracking web application. Users register accounts, record "good" and "bad" habits, and keep a wishlist of rewards. Its data-access layer, `database.py`, sits over three MongoDB collections: `account`, `habit` and `wishlist`. This project models that layer and proves what its operations do.

- **Store** (`database.dfy`, class `Database.Store`). The three collections are map fields from a document's `_id` to the rest of the document. A create operation receives the fresh `_id` that `insert_one` would generate as a parameter. A ghost set `issued` records every id generated so far, in any collection, and the precondition says the new id is not in it. So an id stays used after its document is deleted, as bson never generates the same ObjectId twice.
  - `CreateAccount`, `CreateHabit`, `CreateWishlistEntry` and the three `Delete…` operations are methods with `modifies this`. Their postconditions give the whole new state and the result for every branch, in the source's order of checks.
  - `GetAccountUsingEmail`, `GetHabit`, `GetHabits` and `ValidateUser` are functions that read the store.
  - `Valid()` is the invariant every operation keeps:
    - no two accounts share an email;
    - every stored email passed the format check;
    - every habit type is `"good"` or `"bad"`;
    - every stored cost passed `isinstance(cost, int)` and fits in the signed 8-byte integer that bson stores;
    - every stored `_id` is in `issued`.
- **E-mail format** (`email.dfy`). The check at line 71 is a direct scan (`IsValidEmail`). It is proved equal to `MatchesPattern`, which states the regular expression as a split `local "@" domain "." tld` over the three character classes. `MatchesPattern` includes the single trailing newline that Python's `$` accepts.
- **Passwords** (`passwords.dfy`). A bcrypt hash is modelled as the salt together with a digest. The digest comes from a key derivation that the store receives and that is otherwise left abstract. `checkpw` derives the digest again with the stored salt, so "a password checks against its own hash" is proved rather than assumed.
- **Records** (`records.dfy`) defines:
  - the documents;
  - the `ValueError` messages, and the `OverflowError` that bson raises for an int wider than 8 bytes;
  - the habit-type normalisation;
  - `str()` of an ObjectId (24 hex digits) and of a cost;
  - the stringified dicts that `create_habit` and `create_wishlist_entry` return.

  Because `insert_one` adds `_id` to the dict it is given, those dicts contain `_id` too.
- **Rendering** and **AsciiCase** (`text.dfy`) provide decimal and hexadecimal `str()` with the parsers that invert them, and ASCII lower-casing.
- **Scenarios** (`scenarios.dfy`) contains caller methods. They chain operations and prove the round trips a client relies on: register then look up, create then list then delete a habit, and delete an account while its habits remain.

Points of `database.py` that the model follows as written:
- A wishlist cost is not checked for being non-negative. Only `isinstance(cost, int)` is checked, so `True` and `False` pass and are stored as booleans.
- An int cost outside the signed 8-byte range passes `isinstance` but makes `insert_one` raise `OverflowError` when bson encodes the document. Nothing is stored, but the generated `_id` is used up.
- `delete_account` and `delete_wishlist_entry` raise the same "Invalid habit ID." message as `delete_habit`.
- `database.py` has no operations that increment or decrement points, and no listing of wishlist entries, so the model has neither.
- The address `"a@b.co\n"` passes the format check, and it is stored with its newline (`EmailFormat.TrailingNewlineAccepted`).

## Model

| member | source | states |
|---|---|---|
| EmailFormat.IsValidEmail | database.py:71-72 | The scan accepts an address exactly when it is `local "@" domain "." tld` with each part drawn from its character class and the tld at least two letters long. It also accepts such an address followed by one `"\n"`. |
| EmailFormat.ScanWholeCorrect | database.py:71 | Without the newline allowance, the longest-run scan and the split description agree in both directions. |
| EmailFormat.PatternShape | database.py:71-72 | Every accepted address contains `@` and ends, before an optional newline, in two letters. So an address with no `@` or with a tld shorter than two letters is refused. |
| EmailFormat.MalformedAddressesRefused | database.py:71-72 | `"not-an-email"`, `"a@b"` and `"a@b.c"` are refused. |
| EmailFormat.TrailingNewlineAccepted | database.py:71 | `"a@b.co\n"` is accepted and `"a@b.co\n\n"` is not. |
| EmailFormat.ExampleAddressAccepted | database.py:221 | The start-up block's address `example@gmail.com` is accepted. |
| EmailFormat.DottedAddressAccepted | database.py:71 | Dots and `+` in the local part, and dots in the domain, are accepted. |
| AsciiCase.LowerMatchesSpelling | database.py:103 | Lower-casing gives a lower-case word exactly when the input spells that word in any mix of case. |
| AsciiCase.LowerIdempotent | database.py:110 | Lower-casing again changes nothing. |
| Records.IsInstanceIntIsSubclass | database.py:130 | `isinstance(cost, int)` holds exactly when the class of the cost is a subclass of `int`: `int` itself or `bool`. |
| Records.FitsBsonExactlyInt64 | database.py:141 | An int passes bson's range check exactly when it is the two's-complement value of some 8 bytes, the int64 that BSON stores. |
| Records.Error.Message | database.py:47-209 | Each error carries the exact text that `database.py` raises (and the text of the `OverflowError` raised by bson's C extension); no message is empty. |
| Records.MessagesDistinct | database.py:47-209 | Two errors of the model have the same message exactly when they are the same error. This is a fact about the model's table of texts, which has one error per distinct text. |
| Records.NormalizeHabitType | database.py:103-110 | A habit type is accepted only as `"good"` or `"bad"`, in lower case. |
| Records.NormalizeHabitTypeCases | database.py:103-104 | The types accepted as `"good"` and `"bad"` are exactly their spellings ignoring case. Everything else is refused. |
| Records.NormalizeHabitTypeIdempotent | database.py:110 | The stored, lower-cased type would itself be accepted unchanged. |
| Records.HabitTypeExamples | database.py:103-104 | `"GOOD"` normalises to `"good"`, `"Bad"` to `"bad"`, and `"excellent"` is refused. |
| Records.IdStringRoundTrip | database.py:117 | `str()` of an ObjectId reads back as the same twelve-byte number. |
| Records.IdStringInjective | database.py:117 | Two ObjectIds have the same string exactly when they are equal. |
| Records.HabitStringsDecode | database.py:108-117 | The dict `create_habit` returns has exactly the keys `habit_name`, `habit_type`, `points`, `account_id` and `_id`. Each value reads back as the stored field. |
| Records.WishlistStringsDecode | database.py:135-143 | The dict `create_wishlist_entry` returns has exactly the keys `name`, `cost`, `account_id` and `_id`. An int cost reads back as its number and a bool cost is `"True"` or `"False"`. |
| Rendering.ShowIntRoundTrip | database.py:117 | `str()` of an int parses back to that int. |
| Rendering.ShowNatRoundTrip | database.py:117 | The decimal digits of a natural number parse back to it. |
| Rendering.HexRoundTrip | database.py:117 | The `width` hex digits of a number below `16^width` parse back to it. |
| Passwords.HashPassword | database.py:21-23 | The stored hash keeps the salt it was made with, next to the digest of the password. |
| Passwords.CheckPassword | database.py:206 | `checkpw` accepts exactly when the stored hash equals the hash of the password under the stored salt. |
| Passwords.CheckAcceptsOwnHash | database.py:206 | `checkpw` accepts a password against a hash of that password, whatever the salt. |
| Passwords.CheckAcceptsOnlyOwnPassword | database.py:206-209 | If the derivation separates passwords, a hash accepts its own password and no other. |
| Database.InsertKeepsEmailsUnique | database.py:78-88 | Inserting an account whose email nobody has keeps emails unique. |
| Database.LinkedHabitIsListed | database.py:57-64 | A habit whose owner still exists appears in `get_habits` of the owner's email. |
| Database.Store.GetAccountUsingEmail | database.py:26-34 | It returns an account exactly when some account has the email, and that account has the email. Since emails are unique, that account is the only one. |
| Database.Store.GetHabit | database.py:37-49 | It returns the habit with that id, or "Habit not found." when no habit has it. |
| Database.Store.GetHabits | database.py:52-64 | It raises "Email does not link to a valid account." exactly when no account has the email. Otherwise it returns exactly the stored habits whose `account_id` is that account's id. |
| Database.Store.ValidateUser | database.py:197-211 | It succeeds exactly when an account with the email has a hash that the password checks against, and it then returns that account. With no such account it raises the "does not exist" error, and otherwise the "does not match" error. |
| Database.Store.CreateAccount | database.py:67-90 | A bad format raises first, then a taken email raises, and in both cases nothing changes. Otherwise exactly one account is inserted, with the email, the hashed password and the display name, and no other collection changes. `Valid()` is kept, so emails stay unique. |
| Database.Store.CreateHabit | database.py:93-117 | An unknown email raises before the type is checked, and then a bad type raises; in both cases nothing changes. Otherwise exactly one habit is inserted with the lower-cased type, 0 points and the account's id, and the stringified dict is returned. |
| Database.Store.CreateWishlistEntry | database.py:120-143 | An unknown email raises before the cost is checked, and then a cost that fails `isinstance(cost, int)` raises; in both cases nothing changes. An int outside the signed 8-byte range then raises bson's `OverflowError` in `insert_one`, storing nothing. Otherwise exactly one entry is inserted, linked to the account, and the stringified dict is returned. |
| Database.Store.DeleteAccount | database.py:146-160 | It removes exactly the account with that id and returns it, or raises "Invalid habit ID." and changes nothing. Habits and wishlist entries are never touched, and the id stays in `issued`. |
| Database.Store.DeleteHabit | database.py:163-177 | It removes exactly the habit with that id and returns it, or raises and changes nothing. The other collections are untouched. |
| Database.Store.DeleteWishlistEntry | database.py:180-194 | It removes exactly the entry with that id and returns it, or raises "Invalid habit ID." and changes nothing. The other collections are untouched. |
| Scenarios.RegisterTwice | database.py:67-90 | After registering, the lookup returns the new account and `validate_user` accepts the password. Registering the same email again raises "Email already exists.". |
| Scenarios.HabitRoundTrip | database.py:93-117 | A habit created as `"GOOD"` is stored as `"good"` with `"0"` points and is listed under the email. After it is deleted, the listing is the old one without it. |
| Scenarios.UnknownEmailBeforeType | database.py:99-104 | An unknown email with a bad type reports the email, not the type. |
| Scenarios.WishlistCosts | database.py:126-143 | Cost 500 and cost `True` are stored, and cost 12.5 raises "Cost given is not an integer.". |
| Scenarios.OversizedCost | database.py:130-141 | Cost `2**63 - 1` is stored. Cost `2**63` passes `isinstance` but raises `OverflowError`, and no entry is stored. |
| Scenarios.DeleteAccountOrphansHabits | database.py:146-160 | After its account is deleted, a habit is still readable while its `account_id` names no account. That id stays issued, so no later account can take it over. |
| Scenarios.DeleteMissing | database.py:154-158 | Deleting an absent id from each collection raises and leaves all three collections unchanged. |

## Left out

- MongoDB client construction, the connection string, `ServerApi` and the `with … as client` blocks. They are network I/O; the in-memory `Store` replaces them.
- The start-up block with `load_dotenv`, ping and `print`, because it is process start-up and I/O. Only its example address is used, in `EmailFormat.ExampleAddressAccepted`.
- bcrypt's key derivation, `gensalt` and the cost factor. They are foreign cryptographic code. The derivation is a function the store receives, and the salt is a parameter of `CreateAccount`. bcrypt before version 5.0 only reads the first 72 bytes of a password, so `Passwords.CheckAcceptsOnlyOwnPassword` states its conclusion only under the hypothesis that the derivation separates passwords.
- Generating ObjectIds and converting the id strings that `get_habit` and the `delete_*` functions receive. Both belong to the bson library. The operations take an `ObjectId`, so the `InvalidId` error that bson raises for a malformed string is not modelled. The fresh id of an insert is a parameter; the model requires only that it was never issued before, not how bson builds it from a timestamp, a random value and a counter.
- Database.Store.CreateAccount and Database.Store.ValidateUser: since version 5.0, bcrypt's `hashpw` and `checkpw` raise `ValueError` for a password longer than 72 UTF-8 bytes. With such a bcrypt, `create_account` raises at line 84 and stores nothing, and `validate_user` raises at line 206 instead of reporting a mismatch. The model's hash is total, so it returns `Success` and `Failure(PasswordMismatch)` in those cases. No bcrypt version is pinned, and the derivation is left abstract.
- The other ways bson's encoding in `insert_one` can fail: a `str` with unpaired surrogates, which is not valid UTF-8, and a document over 16 MiB. Strings are sequences of characters here and documents have no size limit.
- The order of the documents that `get_habits` lists, because the collections are maps. `Database.Store.GetHabits` returns the matching documents keyed by `_id`.
- Concurrent requests. With concurrent requests, the read-then-insert check on emails can let two accounts with one email through. The model is sequential: each operation runs on its own.
- Full Unicode `str.lower`. ASCII lower-casing decides the good/bad check for ASCII input.
- `api.py`, a Flask route that renders a template, and the browser code in `static/script.js`. They are HTTP routing and UI, not the data-access layer.
