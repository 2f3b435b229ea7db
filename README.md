# Serverless item API: a Dafny model of its request handlers

The system is a set of AWS Lambda handlers behind an API gateway. Six handlers make up the API:
- **create** (`main-api`): stores an item, with an optional image copied into an object bucket.
- **get-items**: reads one item or scans a page of them.
- **update-item**: applies a partial update.
- **delete-item**: removes an item.
- **login** and **signup**: front a Cognito user pool.

Every handler first validates its configuration (`validateConfig`, `src/config/env.ts`). It then walks a fixed ladder of checks, each with its own status code and message. Finally it calls its services. An outer catch turns a thrown error into a 500 carrying its message. The exceptions are login, which answers 401 to `NotAuthorizedException`, and signup, which answers 409 to `UsernameExistsException`.

This project models each handler's decision logic and proves what the code promises about it. The services are abstract stand-ins (module `Services`):
- the table is a `map` from item id to item;
- the bucket is a `set` of object keys;
- the topic is an append-only `seq` of notices;
- every call attempted is appended to a log.

Which call throws, and with what error, is an input: `failing`, keyed by the call's position in the log. So every "this call threw, so 500" path is a path of the model.

The handlers that change services are written twice:
- a specification function `Handle(..., s: State): (Response, State)` whose contract states the outcome;
- a method `HandleX(b: Backend, ...)` that mutates `Backend`'s fields in place, one service call at a time, and is proved to agree with the function.

Login and signup change no state. They are functions of the request and of the identity provider's answers.

Layout:
- `common.dfy`: JSON values, JavaScript truthiness, `Object.keys`, `parseInt`, decimal numerals.
- `http.dfy`: requests, responses, the shared ladder steps, the catch-all.
- `config.dfy`: `src/config/env.ts`.
- `services.dfy`: the table, bucket, topic and call log. This includes how the table applies a `SET` update expression and which ones it rejects.
- `create_item.dfy`, `get_items.dfy`, `update_item.dfy`, `delete_item.dfy`: one file per item handler.
- `accounts.dfy`: the credential checks that login and signup share.
- `login.dfy`, `signup.dfy`: the two account handlers.

## Model

| member | source | states |
|---|---|---|
| Config.EnvOr | src/config/env.ts:6-12 | A setting is the environment variable's value when that variable is set and non-empty. Otherwise it is the fallback, so it is empty only if the fallback is. |
| Config.Load | src/config/env.ts:5-13 | Each field is read from its own variable: `ENVIRONMENT` (fallback `dev`), `TABLE_NAME`, `BUCKET_NAME`, `SNS_TOPIC_ARN`, `USER_POOL_ID`, `USER_POOL_CLIENT_ID` (fallback empty), and `AWS_REGION` (fallback `us-east-1`). |
| Config.LoadDefaults | src/config/env.ts:5-13 | With no environment, the config is `dev`, five empty settings, and `us-east-1`. |
| Config.MissingAmong | src/config/env.ts:17 | The filter keeps exactly those of the given keys whose setting is empty. |
| Config.MissingInOrder | src/config/env.ts:16-17 | The missing list is exactly the empty required settings, in the order of the `required` array. |
| Config.NamesOfRequired | src/config/env.ts:16 | The required names are tableName, bucketName, snsTopicArn, userPoolId and userPoolClientId, in that order. |
| Config.ValidateConfig | src/config/env.ts:15-22 | Throws iff one of the five required settings is empty. What it throws is an `Error` whose message is `Missing required environment variables: ` followed by the missing names, in order, joined with ", ". |
| Config.AllMissing | src/config/env.ts:16-17 | When all five required settings are empty, the missing list is the whole `required` array, in order. |
| Config.EmptyEnvironmentMissesAll | src/config/env.ts:7-17 | With no environment, all five required settings are missing, in order. |
| Config.EmptyEnvironmentMessage | src/config/env.ts:19-21 | With no environment, the message is the fixed prefix followed by the five names joined with ", ". |
| Config.RegionAndEnvironmentNotRequired | src/config/env.ts:6-16 | Changing `environment` or `awsRegion` never changes whether or what `validateConfig` throws. |
| Common.Properties | src/update-item/index.ts:86 | `Object.keys` throws only on `null`. For an object it lists the object's own keys in order. For an array it lists the indices `0`, `1`, … paired with the elements, and for a string the indices paired with its characters (Unicode scalar values, see "## Left out"). For a number or a boolean it lists nothing. The keys are always distinct. |
| Common.ParseIntOfNatToString | src/get-items/index.ts:114 | `parseInt` of a decimal numeral gives back its number. |
| Common.ParseInt | src/get-items/index.ts:114 | A string of decimal digits is read as its number, and a string with no digit at all gives `NaN`. |
| Http.InternalError | src/delete-item/index.ts:99-109 | A thrown error becomes a 500 carrying its message, or "Internal server error" when the message is empty. |
| Http.Parse | src/update-item/index.ts:54 | A `JSON.parse` failure is a `SyntaxError`. |
| Http.DestructureNull | src/main-api/index.ts:44-45 | Destructuring a `null` body throws a `TypeError` with a non-empty message. |
| Http.Authorized | src/update-item/index.ts:17-18 | Authorized iff the `Authorization` or the `authorization` header is present and non-empty. |
| Http.PathId | src/update-item/index.ts:29-32 | There is an id iff the path parameter `id` is present and non-empty, and it is then that parameter. |
| Http.BodyText | src/update-item/index.ts:43 | There is a body iff the request body is present and non-empty, and it is then the request's body. |
| CreateItemHandler.Validate | src/main-api/index.ts:17-57 | The ladder: configuration (500 with `validateConfig`'s error), then authorization (401, the fixed "Authorization header is required" response), then body (400 "Request body is required"), then JSON parsing (500 with the `SyntaxError`, or with the `TypeError` of destructuring `null`), then title and price (400 "Title and price are required"). Each is an iff. The fields passed on are the body's own. |
| CreateItemHandler.ZeroPriceAccepted | src/main-api/index.ts:48 | A price of 0 passes the ladder. |
| CreateItemHandler.EmptyTitleRefused | src/main-api/index.ts:48-57 | An empty title is refused with 400 "Title and price are required". |
| CreateItemHandler.ImageKeyFor | src/main-api/index.ts:73-85 | There is a key iff the image is truthy, and the key is `<id>/<id>.jpg`. |
| CreateItemHandler.ImageKeyInjective | src/main-api/index.ts:85 | Different ids never share an image key. |
| CreateItemHandler.ImageUrlNotStored | src/main-api/index.ts:76-103 | The stored row does not depend on the image URL, only on whether one was given. |
| CreateItemHandler.NewRow | src/main-api/index.ts:99-106 | The row has exactly id, title, price, imageKey, createdAt and updatedAt. The id is the generated one, and `createdAt == updatedAt ==` the timestamp. |
| CreateItemHandler.Insert | src/main-api/index.ts:108-141 | The put writes the row. The notice follows only after the put, and 201 iff neither call throws. Otherwise the 500 carries the error of the first call to throw (`Thrown`). The 201 body's id and imageKey match the row. |
| CreateItemHandler.Store | src/main-api/index.ts:73-141 | The image is fetched and uploaded before the row is written. The bucket gains the key iff the image is truthy and the upload went through. The row is written only after that, and 201 iff no call throws. Otherwise the 500 carries the error of the first call to throw (`Thrown`). |
| CreateItemHandler.Handle | src/main-api/index.ts:14-154 | A stopped ladder's response is the answer and nothing changes: a configuration error gives its 500, a missing authorization the fixed 401, and a 400 is "Request body is required" or "Title and price are required". After the ladder, a 500 carries the error of the first service call to throw. 201 iff the ladder passes and no service call throws. The 201 case states the new table, bucket, topic and body: one `data_created` notice, with `hasImage` iff a key was stored. Every non-201 publishes nothing. |
| CreateItemHandler.HandleCreate | src/main-api/index.ts:14-154 | The in-place handler leaves the services, and answers, exactly as `Handle` says. |
| CreateItemHandler.CreateKeepsImagesStored | src/main-api/index.ts:88-113 | Every row that names an image key names one in the bucket, and creating an item keeps this true whichever call fails. |
| CreateItemHandler.StoreKeepsImagesStored | src/main-api/index.ts:88-113 | The steps after validation keep every stored image key in the bucket. The upload precedes the row write, and the bucket only grows. |
| GetItemsHandler.GenerateImageUrl | src/get-items/index.ts:10-23 | The URL is the signed one, or `null` exactly when signing fails. |
| GetItemsHandler.WithImageUrl | src/get-items/index.ts:27-42 | The copy has the item's fields plus `imageUrl`, with all other values kept. `imageUrl` is non-null iff `imageKey` is truthy and signing succeeds, and it is then the signed URL. |
| GetItemsHandler.AddImageUrls | src/get-items/index.ts:25-47 | Same length and order as the input. Each element is the augmented copy of the matching input item. |
| GetItemsHandler.AddImageUrlsKeepsItems | src/get-items/index.ts:28 | For every item that had no `imageUrl` field, removing `imageUrl` from its copy gives back the original item. |
| GetItemsHandler.Query | src/get-items/index.ts:113-119 | A query parameter is read iff it is present and non-empty. |
| GetItemsHandler.ScanRequest | src/get-items/index.ts:109-119 | `Limit` is set iff `limit` is given, and then it is its `parseInt`. `ExclusiveStartKey` is set iff `lastEvaluatedKey` is given, and then it is its parse. A cursor that is not JSON is a `SyntaxError`. |
| GetItemsHandler.BuildScanParams | src/get-items/index.ts:109-119 | The field-by-field construction gives exactly `ScanRequest`. |
| GetItemsHandler.LimitPassesThrough | src/get-items/index.ts:113-115 | A decimal `limit` reaches the scan as that number. |
| GetItemsHandler.ItemsOf | src/get-items/index.ts:123 | A scan result without `Items` is read as no items, and otherwise its items are taken as they are. |
| GetItemsHandler.Handle | src/get-items/index.ts:50-150 | Never changes the table, bucket or topic. Each status is an iff. 401 comes before any table call and is the fixed "Authorization header is required" response. 404 (id given, absent) is "Item not found", after logging only the read. A 500 carries `validateConfig`'s error, the cursor's `SyntaxError` (before any call), or the error of the read or scan that threw. The 200 for an id is its single augmented item. The 200 for a scan has the augmented page, `count` equal to the number of items, a missing `Items` read as none, and the cursor passed on. |
| GetItemsHandler.HandleGet | src/get-items/index.ts:50-150 | The handler as run against the services agrees with `Handle`. |
| UpdateItemHandler.BuildClause | src/update-item/index.ts:79-95 | The builder loop produces exactly `ClauseOf` of the body's fields. |
| UpdateItemHandler.Positions | src/update-item/index.ts:86-87 | Lists every position of a non-protected key, and only those, in increasing order. |
| UpdateItemHandler.ClauseActions | src/update-item/index.ts:84-97 | The clause starts with `updatedAt = :updatedAt`. It then has one `#attrI = :valI` per non-protected key, in key order. I is the key's position among all keys, skipped ones included. |
| UpdateItemHandler.TokensInjective | src/update-item/index.ts:88-89 | Different positions give different placeholders. |
| UpdateItemHandler.ValTokenIsNotStamp | src/update-item/index.ts:79-89 | No `:valI` collides with `:updatedAt`. |
| UpdateItemHandler.ClauseMaps | src/update-item/index.ts:79-92 | The values always hold `:updatedAt` = the timestamp. Each non-protected key has its name and value placeholders, and nothing else is defined. |
| UpdateItemHandler.NamesParam | src/update-item/index.ts:105 | `ExpressionAttributeNames` is sent iff the names map is non-empty, and what is sent is that map itself. |
| UpdateItemHandler.NamesOmittedIffAllProtected | src/update-item/index.ts:105 | `ExpressionAttributeNames` is omitted iff every body key is protected. |
| UpdateItemHandler.ExampleActions | src/update-item/index.ts:84-95 | For the body `{id, title, createdAt, price}`, the actions are the stamp, then positions 1 and 3. |
| UpdateItemHandler.ExampleExpression | src/update-item/index.ts:97 | For that body, the expression text is `SET updatedAt = :updatedAt, #attr1 = :val1, #attr3 = :val3`. |
| UpdateItemHandler.ExpressionText | src/update-item/index.ts:97 | The expression starts with `SET ` followed by the first action. With one action, it is exactly `SET ` and that action. |
| UpdateItemHandler.StampOnlyExpression | src/update-item/index.ts:84-97 | A body whose keys are all protected gives only the stamp action, and the expression `SET updatedAt = :updatedAt`. |
| UpdateItemHandler.EmptyNameSent | src/update-item/index.ts:86-90 | The names map sent contains the empty string iff the body has a property named by the empty string. |
| UpdateItemHandler.PatchedRow | src/update-item/index.ts:75-109 | The updated row is the old row overlaid with the non-protected fields, with `updatedAt` set to the timestamp. `id` and `createdAt` are unchanged. |
| UpdateItemHandler.AssignClause | src/update-item/index.ts:100-109 | Applying the built actions in order yields the patched row. |
| UpdateItemHandler.PlaceholdersUsed | src/update-item/index.ts:88-93 | Every name and value placeholder sent is used by some action. |
| UpdateItemHandler.TargetsDistinct | src/update-item/index.ts:86-93 | The attributes written are pairwise distinct, so the update has no overlapping paths. |
| UpdateItemHandler.BuiltUpdateApplies | src/update-item/index.ts:97-109 | For a JSON object body with no empty property name, the table accepts the built update and stores the patched row. With an empty property name it refuses the update with its "Empty attribute name" validation error. |
| UpdateItemHandler.UpdateOutcome | src/update-item/index.ts:99-109 | The update call on an existing row throws the environment's error for that call, or is refused for an empty property name, or stores the patched row, and logs exactly that call. |
| UpdateItemHandler.BodyFields | src/update-item/index.ts:54-86 | The body's keys are distinct. |
| UpdateItemHandler.Commit | src/update-item/index.ts:100-145 | Update, re-read, publish: 200 iff none throws and the table accepts the update (no empty property name). A failure reports the first call to throw, or else the table's "Empty attribute name" refusal. The table holds the patched row iff the update went through. The notice lists every body key, protected ones included, and the response item is the re-read row. |
| UpdateItemHandler.Announce | src/update-item/index.ts:111-145 | Re-read, then publish the notice: 200 iff neither throws, with the re-read row as the item and the notice listing the given keys. Otherwise the 500 carries the error of the first call to throw (`Thrown`) and nothing is published. The table is never changed. |
| UpdateItemHandler.Amend | src/update-item/index.ts:79-145 | For an existing item: 200 iff the body's properties can be read, none is named by the empty string and no call throws. A 500 carries the first thrown call's error, else `Object.keys`' `TypeError`, else the table's "Empty attribute name" refusal. The table holds the patched row iff the update went through, and the notice lists the body keys. |
| UpdateItemHandler.Proceed | src/update-item/index.ts:56-145 | 404 iff the read finds no item, and then only the read is logged and the answer is "Item not found". It is 200 iff no call throws, the body's properties can be read (it is not `null`) and none of them is named by the empty string. A number or boolean body has no properties and still gets 200, with only `updatedAt` set. A 500 carries the first thrown call's error, else `Object.keys`' `TypeError`, else the table's "Empty attribute name" refusal. |
| UpdateItemHandler.Handle | src/update-item/index.ts:13-157 | The ladder, in order: 500 (`validateConfig`'s error, nothing changed), 401 ("Authorization header is required"), 400 for no id ("Item ID is required in path parameter", checked first) or no body ("Request body is required"), then 404 ("Item not found"). Each is an iff. A 4xx changes nothing beyond the read's log entry. Any other 500 carries the body's `SyntaxError`, the error of the first call to throw, `Object.keys`' `TypeError`, or the table's "Empty attribute name" refusal, in that order. The 200 case states the new table, the notice and the body. |
| UpdateItemHandler.HandleUpdate | src/update-item/index.ts:10-158 | The in-place handler agrees with `Handle`. |
| DeleteItemHandler.Remove | src/delete-item/index.ts:62-98 | The id is removed iff the delete goes through, with no other entry touched. 200 iff the notice also goes through, and the notice then carries the pre-delete row. Otherwise the 500 carries the error of the first call to throw (`Thrown`). |
| DeleteItemHandler.Proceed | src/delete-item/index.ts:43-98 | Given an id: 404 iff the read answers and the id is absent, with only the read logged. 200 iff the id is present and the read, delete and publish all go through. The table loses exactly that id when the delete runs. A 500 carries the error of the first call to throw, and nothing is published then. |
| DeleteItemHandler.Handle | src/delete-item/index.ts:10-111 | Each status is an iff, with its fixed response: 401 "Authorization header is required", 400 "Item ID is required in path parameter", 404 "Item not found" (only the read logged), and 200. A 500 carries `validateConfig`'s error (nothing changed) or the error of the first call to throw. The table loses exactly that id when the delete runs. The notice carries the snapshot, and `deletedId` is the path id. Nothing is published on failure. |
| DeleteItemHandler.HandleDelete | src/delete-item/index.ts:10-111 | The in-place handler agrees with `Handle`. |
| DeleteItemHandler.SecondDeleteNotFound | src/delete-item/index.ts:44-60 | Repeating a successful delete of the same id answers 404. |
| DeleteItemHandler.DeleteFailureReported | src/delete-item/index.ts:63-109 | A delete the table refuses gives 500 with its message, and the table and topic are unchanged. |
| Accounts.Body | src/login/index.ts:28 | The parsed body is not `null`. |
| Accounts.ReadCredentials | src/login/index.ts:14-39 | Configuration is checked first, and its error is what is thrown. Then: 400 "Request body is required" iff there is no body, and 400 "Email and password are required" iff email or password is falsy. The credentials passed on are the body's own. What is thrown otherwise is the parse's `SyntaxError`, or the `TypeError` of destructuring a `null` body. |
| Accounts.HeadersIgnored | src/login/index.ts:14-39 | No authorization header is needed. |
| LoginHandler.Catch | src/login/index.ts:76-98 | `NotAuthorizedException` gives 401 "Invalid credentials". Anything else gives a 500 with its message. |
| LoginHandler.Handle | src/login/index.ts:11-99 | A 400 is exactly the credentials ladder's response. The provider is asked iff both fields pass, with the client id, email and password. 200 iff it returns tokens, and they are copied unchanged. 401 iff it returns none or throws `NotAuthorizedException`, and the message tells which. 500 iff the ladder throws or the provider throws something else, and it then carries that error. |
| LoginHandler.AnswerIgnoredWhenRejected | src/login/index.ts:17-50 | When the ladder stops the request, the provider's answer cannot matter. |
| LoginHandler.NoAuthorizationNeeded | src/login/index.ts:14-50 | The request's headers never change the outcome. |
| SignupHandler.Catch | src/signup/index.ts:138-159 | `UsernameExistsException` gives 409 "User already exists". Anything else gives a 500 with its message. |
| SignupHandler.ConfirmError | src/signup/index.ts:57-90 | The inner catch sees the confirmation's error when the confirmation throws, and otherwise the status read's own error when that read throws. There is none iff both succeed. |
| SignupHandler.AfterRegistration | src/signup/index.ts:55-137 | Always a 201 carrying the registration's `UserSub`. It says "confirmed" iff confirm and read both succeed, or the inner catch's error (from the confirmation or from the status read) is NotAuthorized/AliasExists and the re-check says CONFIRMED. Otherwise it has the warning. The calls are the confirmation, the status read when the confirmation went through, and the re-check exactly when the inner catch's error is NotAuthorized/AliasExists. |
| SignupHandler.Handle | src/signup/index.ts:12-161 | A 400 is exactly the credentials ladder's response. The registration is sent iff both fields pass. 201 iff registration succeeds, and the 201 response and the calls after the registration are exactly `AfterRegistration`'s. 409 iff registration throws `UsernameExistsException`, with "User already exists". 500 iff the ladder throws or the registration throws something else, and it then carries that error. |
| SignupHandler.RegisteredIsNeverDowngraded | src/signup/index.ts:57-137 | Once registration succeeds, no later answer turns the 201 into anything else. |
| SignupHandler.OtherConfirmErrorUnconfirmed | src/signup/index.ts:90-136 | Any other confirm error gives the unconfirmed 201 without a re-check. |
| SignupHandler.StatusReportedAsRead | src/signup/index.ts:65-89 | After a successful confirmation, the status read is reported as read, even when not CONFIRMED. |

## Left out

- Wire formats and transport are not modelled: the AWS SDK clients and their wire formats, the Lambda runtime, and the API gateway event format beyond headers, path id, query parameters and body. Each service is the abstract state above, and whether a call throws is an input.
- The table's own validation of update expressions is modelled only for what the builder can get wrong: missing, unused or empty placeholder maps, overlapping paths, and an attribute name that is the empty string. Reserved words, item size and type checks are not modelled.
- `uuidv4()` and `new Date().toISOString()` are not modelled: the id and timestamp are parameters.
- The image download (`node-fetch`, `arrayBuffer`, `Buffer.from`) is one service call that succeeds or throws. The bytes and content type are not modelled.
- `getSignedUrl` presigning is an oracle `sign` that gives a URL or fails. Its cryptography and the 3600-second expiry are not modelled.
- `JSON.parse` is an oracle: each request text carries the value or `SyntaxError` it parses to. `JSON.stringify` of response bodies and notices is not modelled; they are datatypes.
- JSON numbers are reals. `parseInt` is modelled for ASCII whitespace, sign and decimal digits; radix prefixes and Unicode whitespace are not modelled.
- Common.ParseInt: the result is the exact integer. JavaScript's `parseInt` returns a double, which is rounded for values above 2^53; that rounding is not modelled.
- Common.Properties: a string is a sequence of Unicode scalar values (Dafny `char`), not of UTF-16 code units. `Object.keys` on a string lists one key per UTF-16 code unit. So a character outside the Basic Multilingual Plane gives two keys (two `SET` actions, each a lone surrogate) in JavaScript, and one key in this model.
- The order of `Object.keys` is the order of an object's fields. JavaScript's rule that integer-like keys come first is left to the `JSON.parse` oracle.
- The exact text of V8's `TypeError` for destructuring `null` follows the engine's usual wording. Only its name and non-emptiness are relied on.
- `Promise.all` concurrency in `addImageUrlsToItems` is not modelled, because the output order is the input order.
- The inner `try`/`catch` around `generateImageUrl` in `addImageUrlsToItems` is not modelled: that function catches its own errors and never throws, so the inner catch is dead.
- `console` logging is not modelled, nor the `dotenv` loading itself. The environment is a map given to `Config.Load`.
- The "Data field is required" branch of the create handler is not modelled: `data` is always an object literal, so the branch can never run.
- GetItemsHandler.Handle: the response's `lastEvaluatedKey` is the scan cursor itself (or none), not its `JSON.stringify` text.
- GetItemsHandler.Handle: the scan's answer (`page`) is a free input, not tied to the table. The items a scan returns, their order and its paging cursor are therefore unconstrained by the table's contents.
- GetItemsHandler.ScanRequest: whether the table accepts the `Limit` (for example `NaN` or 0) is the table's answer, not modelled.
- The `local-run.ts` command-line runners and the jest tests are not part of this model.
- Reads are strongly consistent and requests do not interleave. The re-read after an update (a `GetCommand` without `ConsistentRead`) is eventually consistent, so the real 200 body can still be the row from before the update; the model's body is always the patched row. Another request can also run between the existence check and the write. Then `UpdateCommand` re-creates a row that was just deleted, and `DeleteCommand` on a row that has vanished still answers 200; neither interleaving is modelled.
- Items are values, so "the input items are not modified" holds by construction rather than being proved about aliasing.
- UpdateItemHandler.Handle: the table receives the structured `SET` actions. The expression text is modelled separately (`ExpressionText`, proved on an example), but its parsing by the table is not.
