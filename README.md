# thriftr core in Dafny

thriftr is an Android clothing shop. It is written in Kotlin on Jetpack Compose and uses an Appwrite backend. This project models the part of the app that holds its logic. It does not model the screens.

- **Cart:** the cart view model and the cart repository.
  - A user's cart document holds one JSON string per line.
  - Lines are merged by the key `productId-size-color`.
  - Quantity edits from the screen are debounced into one remote write.
- **Wishlist:** the wishlist view model.
  - A delete first hides the item, then removes it from the list and starts a delayed deletion job.
  - Undo cancels the job and puts the item back at the end.
- **Home screen:** the home view model and the product repository.
  - Category tabs each keep their own pagination.
  - Pages of four products are fetched with `limit` and `offset` queries.
  - Products are cached by id and de-duplicated.
  - Results can be sorted by price and filtered; search is included.
- **Profile, admin and settings screens:** the three view models.
  - The profile holds an address book with a single default address.
  - The admin form validates amounts, parses sizes and encodes colours, then uploads images and saves a product.
  - The settings screen holds the theme preference and the notifications switch.
- **Documents:** the `User` and `Product` documents.
- **Orders:** the order repository, with one document per user holding one JSON string per order.

How the model is built:

- Each view model, repository and document file is one Dafny module. Shared helpers have modules of their own (`Common`, `Text`, `Ledger`), and the product page's size and colour chip parsing (SizeChips.kt, ColorChips.kt) lives in `AdminVm`, beside the admin form that produces that text.
- View models and repositories are classes. Their fields are the state flows and maps that the Kotlin code changes.
- Pure transformations are functions. Each has lemmas about what it computes and what it preserves.
- Backend state is kept in fields of the repository classes: cart and order documents, product documents and stored files.
  - A `reachable` flag stands for "every backend call throws".
  - Answers from code that is not modelled are passed in as parameters: the wishlist, profile and auth repositories, image compression and generated ids.
- The kotlinx serialization codec is an abstract `Codec`: a pair of encode and decode functions. Properties that need a lossless codec assume `RoundTrips` (decoding an encoding gives back the value).
- Coroutines are modelled as Dafny statements that run to completion.
- Events that happen later are separate methods: the debounce timer firing (`FireUpdate`) and the wishlist deletion job firing (`DeletionTimerFires`).

## Model

| member | source | states |
|---|---|---|
| `Common.StringsOf` | app/src/main/java/com/example/thriftr/data/Product.kt:34-36 | keeps only string elements: never longer than the input, every kept string was an element, and nothing is lost when every element is a string |
| `Common.StringsOfStrs` | app/src/main/java/com/example/thriftr/repository/ProductRepository.kt:172-176 | a list of strings written to a document field reads back as the same list |
| `Common.StringsOfConcat` | app/src/main/java/com/example/thriftr/data/Product.kt:34-36 | the string filter keeps order across a split of the list |
| `Common.DecodeAll` | app/src/main/java/com/example/thriftr/data/User.kt:28 | decode-and-drop never yields more values than there are strings |
| `Common.DecodeAllConcat` | app/src/main/java/com/example/thriftr/repository/CartRepository.kt:171-184 | decode-and-drop keeps order across a split of the list |
| `Common.EncodeAll` | app/src/main/java/com/example/thriftr/repository/OrderRepository.kt:99 | one encoding per value, position by position |
| `Common.DecodeEncodeAll` | app/src/main/java/com/example/thriftr/data/User.kt:28 | with a round-tripping codec, decoding every encoding loses nothing and keeps order |
| `Common.DecodeEvery` | app/src/main/java/com/example/thriftr/repository/OrderRepository.kt:29 | all-or-nothing decoding: a result exactly when every string decodes, and then each value is its string's decoding |
| `Common.DecodeEveryEncodeAll` | app/src/main/java/com/example/thriftr/repository/OrderRepository.kt:91 | with a round-tripping codec, every encoding decodes and the list comes back |
| `Text.SkipBlanks` | app/src/main/java/com/example/thriftr/viewModel/AdminViewModel.kt:152 | the forward scan of `trim()`: the first index at or after the start that is not whitespace, everything skipped being whitespace, or the end when there is none |
| `Text.SkipBlanksBack` | app/src/main/java/com/example/thriftr/viewModel/AdminViewModel.kt:152 | the backward scan of `trim()`: the end of the stretch once its trailing whitespace is dropped, never below the start, everything dropped being whitespace |
| `Text.TrimStart` | app/src/main/java/com/example/thriftr/viewModel/AdminViewModel.kt:152 | the suffix of the input left after dropping the leading whitespace: everything dropped is whitespace and the result does not start with whitespace |
| `Text.TrimEnd` | app/src/main/java/com/example/thriftr/viewModel/AdminViewModel.kt:152 | the prefix of the input left after dropping the trailing whitespace: everything dropped is whitespace and the result does not end with whitespace |
| `Text.Trim` | app/src/main/java/com/example/thriftr/viewModel/AdminViewModel.kt:152 | starts and ends with non-whitespace and uses only the input's characters (its position in the input is stated in TrimInfix) |
| `Text.TrimInfix` | app/src/main/java/com/example/thriftr/viewModel/AdminViewModel.kt:152 | the result is the stretch of the input that starts after its leading whitespace, with only whitespace before it and after it |
| `Text.TrimEmptyIffBlank` | app/src/main/java/com/example/thriftr/viewModel/AdminViewModel.kt:152-153 | a part trims to the empty string exactly when it is blank, so the filter drops exactly the blank parts |
| `Text.TrimOfTrimmed` | app/src/main/java/com/example/thriftr/utils/components/productdetailsscreen/SizeChips.kt:29-30 | a string with nothing to trim is its own trim |
| `Text.Split` | app/src/main/java/com/example/thriftr/viewModel/AdminViewModel.kt:151 | at least one part, and no part contains the delimiter |
| `Text.SplitWithout` | app/src/main/java/com/example/thriftr/viewModel/AdminViewModel.kt:151 | a string without the delimiter splits into itself alone |
| `Text.SplitAt` | app/src/main/java/com/example/thriftr/viewModel/AdminViewModel.kt:151 | splitting at the first delimiter gives the part before it followed by the parts of the rest |
| `Text.NatToString` | app/src/main/java/com/example/thriftr/repository/ProductRepository.kt:126 | the decimal spelling is a non-empty digit string whose value is the index |
| `Text.NatToStringInjective` | app/src/main/java/com/example/thriftr/repository/ProductRepository.kt:126 | distinct indices have distinct spellings |
| `CartData.OrEmpty` | app/src/main/java/com/example/thriftr/viewModel/CartViewModel.kt:161-163 | a missing value becomes the empty string; a present one is kept |
| `CartData.ItemKeySplits` | app/src/main/java/com/example/thriftr/viewModel/CartViewModel.kt:161-163 | when no part holds `-`, splitting the key on `-` gives back the id, size and colour, missing ones as empty |
| `CartData.ItemKeyNormalises` | app/src/main/java/com/example/thriftr/viewModel/CartViewModel.kt:161-163 | a missing size or colour and an empty one give the same key |
| `CartData.ItemKeyInjective` | app/src/main/java/com/example/thriftr/repository/CartRepository.kt:90-92 | for parts without `-`, equal keys mean equal parts up to missing = empty |
| `CartData.ItemKeyCollides` | app/src/main/java/com/example/thriftr/repository/CartRepository.kt:90-92 | with a `-` inside a part two different lines share a key (concrete witness) |
| `CartData.KeysAgree` | app/src/main/java/com/example/thriftr/repository/CartRepository.kt:90-92 | a stored line and the displayed line built from it have the same key: repository and view model use one key function |
| `CartData.QuantityLaws` | app/src/main/java/com/example/thriftr/data/Cart.kt:5-18 | `copy(quantity = q)` keeps the key and is idempotent, for stored and displayed lines |
| `Ledger.FirstIndex` | app/src/main/java/com/example/thriftr/viewModel/CartViewModel.kt:120 | the index found carries the key and no earlier line does; -1 exactly when no line carries it |
| `Ledger.RemoveAt` | app/src/main/java/com/example/thriftr/viewModel/CartViewModel.kt:128-130 | the list without position i: shorter by one, the lines before and after unchanged |
| `Ledger.UpsertInPlace` | app/src/main/java/com/example/thriftr/viewModel/CartViewModel.kt:120-135 | the scan for the first line with the key, then the index assignment, `removeAt` or `add` on the copy, yields exactly the merge rule Upsert |
| `Ledger.UpsertIgnoresAdded` | app/src/main/java/com/example/thriftr/repository/CartRepository.kt:75-79 | the line to append matters only when the key is absent and the quantity is positive |
| `Ledger.Others` | app/src/main/java/com/example/thriftr/viewModel/CartViewModel.kt:205-207 | never longer than the input; every line left was listed and has another key |
| `Ledger.OthersAround` | app/src/main/java/com/example/thriftr/viewModel/CartViewModel.kt:120-130 | removing or changing a line that carries the key leaves every other line as it was |
| `Ledger.UpsertReplaces` | app/src/main/java/com/example/thriftr/repository/CartRepository.kt:64-72 | existing key, positive quantity: same length, only the first line with the key changes, to that quantity |
| `Ledger.UpsertRemoves` | app/src/main/java/com/example/thriftr/repository/CartRepository.kt:73-74 | existing key, quantity zero or less: the first line with the key is removed and the rest keep their order |
| `Ledger.UpsertRemovesAll` | app/src/main/java/com/example/thriftr/repository/CartRepository.kt:73-74 | with one line per key, removal leaves no line with the key |
| `Ledger.UpsertAbsent` | app/src/main/java/com/example/thriftr/repository/CartRepository.kt:75-79 | absent key: a positive quantity appends the new line at the end; otherwise the list is unchanged |
| `Ledger.UpsertKeepsOthers` | app/src/main/java/com/example/thriftr/repository/CartRepository.kt:64-79 | the lines with any other key are untouched and keep their order |
| `Ledger.UpsertKeepsUnique` | app/src/main/java/com/example/thriftr/repository/CartRepository.kt:64-79 | the merge keeps at most one line per key |
| `Ledger.UpsertIdempotent` | app/src/main/java/com/example/thriftr/repository/CartRepository.kt:64-81 | merging twice with the same arguments is merging once, given one line per key |
| `Ledger.FirstIndexAt` | app/src/main/java/com/example/thriftr/viewModel/CartViewModel.kt:120 | the first index is where the key first appears after lines without it |
| `Ledger.OthersIsRemoveFirst` | app/src/main/java/com/example/thriftr/repository/CartRepository.kt:139-144 | with one line per key, dropping every line with the key is removing the first one |
| `CartRepo.CartDocumentData` | app/src/main/java/com/example/thriftr/repository/CartRepository.kt:102-126 | exactly the keys `userId` and `products`: the owner's id and one list entry per line |
| `CartRepo.GetCartItems` | app/src/main/java/com/example/thriftr/repository/CartRepository.kt:169-185 | a missing or non-list `products` field gives no lines; otherwise never more lines than entries |
| `CartRepo.ItemsIn` | app/src/main/java/com/example/thriftr/repository/CartRepository.kt:94-100 | a user without a cart document has an empty cart |
| `CartRepo.SaveCart` | app/src/main/java/com/example/thriftr/repository/CartRepository.kt:110-125 | no lines: the user's document is gone; lines: the user's document holds them; other users' documents are untouched |
| `CartRepo.SaveWrites` | app/src/main/java/com/example/thriftr/repository/CartRepository.kt:110-125 | no lines: delete an existing document, never create; lines: update the existing document or create exactly one |
| `CartRepo.ProductsOf` | app/src/main/java/com/example/thriftr/repository/CartRepository.kt:150-160 | when the backend answers, exactly the requested ids that have a document, each decoded; nothing otherwise |
| `CartRepo.GetCartItemsRoundTrip` | app/src/main/java/com/example/thriftr/repository/CartRepository.kt:169-185 | with a round-tripping codec, the lines written are the lines read back |
| `CartRepo.SaveCartReadBack` | app/src/main/java/com/example/thriftr/repository/CartRepository.kt:102-126 | after a save the user's stored lines are exactly the saved lines and no other user's lines change |
| `CartRepo.GetCartItemsConcat` | app/src/main/java/com/example/thriftr/repository/CartRepository.kt:171-184 | decoding keeps order across the stored list |
| `CartRepo.GetCartItemsDropsOne` | app/src/main/java/com/example/thriftr/repository/CartRepository.kt:171-184 | an entry that is not a string or does not decode yields no line |
| `CartRepo.MergeItemCases` | app/src/main/java/com/example/thriftr/repository/CartRepository.kt:64-79 | the replace, remove, append and no-op outcomes of the merge, each with its exact result |
| `CartRepo.MergeItemIdempotent` | app/src/main/java/com/example/thriftr/repository/CartRepository.kt:64-81 | the merge applied twice leaves the list it left the first time |
| `CartRepo.MergeItemKeeps` | app/src/main/java/com/example/thriftr/repository/CartRepository.kt:64-79 | the merge keeps one line per key and every line of another key as it was |
| `CartRepo.CartRepository.constructor` | app/src/main/java/com/example/thriftr/repository/CartRepository.kt:23-28 | codec, product documents, reachability, failure message and cart documents as given; no write yet |
| `CartRepo.CartRepository.CartItemsOf` | app/src/main/java/com/example/thriftr/repository/CartRepository.kt:94-100 | the stored lines of the user's document, none without one |
| `CartRepo.CartRepository.GetCartWithProducts` | app/src/main/java/com/example/thriftr/repository/CartRepository.kt:30-41 | never Loading; an error exactly when the backend is unreachable; otherwise the user's stored lines |
| `CartRepo.CartRepository.GetProduct` | app/src/main/java/com/example/thriftr/repository/CartRepository.kt:43-51 | a product exactly when the backend answers and the document exists, then the decoded document with the requested id |
| `CartRepo.CartRepository.GetProducts` | app/src/main/java/com/example/thriftr/repository/CartRepository.kt:150-160 | exactly the requested ids whose product resolves, each mapped to that product |
| `CartRepo.CartRepository.UpdateCartDocument` | app/src/main/java/com/example/thriftr/repository/CartRepository.kt:102-126 | the new documents are those of SaveCart and the write log grows by the writes of SaveWrites |
| `CartRepo.CartRepository.UpdateCartItem` | app/src/main/java/com/example/thriftr/repository/CartRepository.kt:53-87 | unreachable: the error and no write; otherwise the merged list is returned, saved by the document rule, and (with a round-tripping codec) reads back as returned |
| `CartRepo.CartRepository.RemoveFromCart` | app/src/main/java/com/example/thriftr/repository/CartRepository.kt:128-148 | an existing key: the first line with it is dropped and written back; an absent key: no write, the loaded list is returned |
| `CartRepo.CartRepository.ClearCart` | app/src/main/java/com/example/thriftr/repository/CartRepository.kt:162-167 | succeeds exactly when reachable: the user's document is deleted and logged; otherwise nothing changes |
| `CartVm.ProductIds` | app/src/main/java/com/example/thriftr/viewModel/CartViewModel.kt:61 | every stored line's product id, and no other id |
| `CartVm.Resolve` | app/src/main/java/com/example/thriftr/viewModel/CartViewModel.kt:65-81 | never more displayed lines than stored lines |
| `CartVm.Associate` | app/src/main/java/com/example/thriftr/viewModel/CartViewModel.kt:86-88 | the map's keys are exactly the list's keys |
| `CartVm.AssociateLastWins` | app/src/main/java/com/example/thriftr/viewModel/CartViewModel.kt:86-88 | each key maps to the value of the last element carrying it |
| `CartVm.ResolveAllFound` | app/src/main/java/com/example/thriftr/viewModel/CartViewModel.kt:67-81 | when every product resolves, no line is lost and each keeps its position |
| `CartVm.ResolveNoneFound` | app/src/main/java/com/example/thriftr/viewModel/CartViewModel.kt:67-81 | lines whose product is missing vanish wherever they stand |
| `CartVm.ResolveConcat` | app/src/main/java/com/example/thriftr/viewModel/CartViewModel.kt:67-81 | resolving a list is resolving its halves: kept lines keep their order |
| `CartVm.MergeLineCases` | app/src/main/java/com/example/thriftr/viewModel/CartViewModel.kt:120-135 | existing key: replace in place or remove the first line; absent key: append only when the product resolved, else unchanged |
| `CartVm.Flushed` | app/src/main/java/com/example/thriftr/viewModel/CartViewModel.kt:165-178 | the remote writes a run of schedule and timer events performs, in order |
| `CartVm.Schedules` | app/src/main/java/com/example/thriftr/viewModel/CartViewModel.kt:165-178 | one schedule event per edit, in order |
| `CartVm.FlushedCoalesces` | app/src/main/java/com/example/thriftr/viewModel/CartViewModel.kt:165-178 | a burst of edits then one timer writes only the last edit, across different keys |
| `CartVm.FlushedIdleTimer` | app/src/main/java/com/example/thriftr/viewModel/CartViewModel.kt:165-178 | a timer with nothing pending writes nothing, and each timer writes at most once |
| `CartVm.ValidCartProducts` | app/src/main/java/com/example/thriftr/viewModel/CartViewModel.kt:65-81 | the for-loop collects exactly the resolved lines, in order |
| `CartVm.CartViewModel.constructor` | app/src/main/java/com/example/thriftr/viewModel/CartViewModel.kt:34-50 | loading state, no local updates, no pending write |
| `CartVm.CartViewModel.LoadCart` | app/src/main/java/com/example/thriftr/viewModel/CartViewModel.kt:52-102 | signed out: nothing changes; success: the resolved lines are shown and `localUpdates` maps every stored key to its quantity; error: the error shows and `localUpdates` is kept; the loading flag ends false and the pending slot is kept |
| `CartVm.CartViewModel.ShowCart` | app/src/main/java/com/example/thriftr/viewModel/CartViewModel.kt:83-88 | the success state with the resolved lines, and the quantities of all stored lines |
| `CartVm.CartViewModel.UpdateQuantity` | app/src/main/java/com/example/thriftr/viewModel/CartViewModel.kt:104-144 | outside Success nothing changes; otherwise `localUpdates[k]` is q for q > 0 and k is absent otherwise, other keys untouched; the lines become MergeLine; the single slot holds this write when signed in |
| `CartVm.CartViewModel.DebouncedUpdate` | app/src/main/java/com/example/thriftr/viewModel/CartViewModel.kt:165-178 | the slot holds exactly the new write, whatever it held before |
| `CartVm.CartViewModel.FireUpdate` | app/src/main/java/com/example/thriftr/viewModel/CartViewModel.kt:165-178 | the slot empties; a pending write runs the repository's merge and document rule when the backend answers; with nothing pending nothing is written |
| `CartVm.CartViewModel.ClearCart` | app/src/main/java/com/example/thriftr/viewModel/CartViewModel.kt:181-195 | signed in and reachable: the document is deleted, an empty cart shows and `localUpdates` empties; unreachable: "Failed to clear cart" and nothing else changes; the pending slot is kept |
| `CartVm.CartViewModel.RemoveFromCart` | app/src/main/java/com/example/thriftr/viewModel/CartViewModel.kt:197-216 | the key leaves `localUpdates`; in Success every displayed line with it is dropped; signed in and reachable, the repository drops and saves without the first stored line with it, or writes nothing for an absent key |
| `CartVm.RemoveLineDropsKey` | app/src/main/java/com/example/thriftr/viewModel/CartViewModel.kt:199-208 | no displayed line with the key is left and every other line stays, in order |
| `WishlistVm.Find` | app/src/main/java/com/example/thriftr/viewModel/WishlistViewModel.kt:65 | none exactly when no product has the id; otherwise the first product with it |
| `WishlistVm.WithoutId` | app/src/main/java/com/example/thriftr/viewModel/WishlistViewModel.kt:69 | every product left was listed and has another id |
| `WishlistVm.WithoutAbsentId` | app/src/main/java/com/example/thriftr/viewModel/WishlistViewModel.kt:69 | removing an id that is not listed changes nothing |
| `WishlistVm.UndoAppendsAtEnd` | app/src/main/java/com/example/thriftr/viewModel/WishlistViewModel.kt:59-106 | with one product per id, remove then undo leaves the list without the product followed by it, which differs from the original unless it was last |
| `WishlistVm.WishlistViewModel.constructor` | app/src/main/java/com/example/thriftr/viewModel/WishlistViewModel.kt:26-30 | loading state and empty maps |
| `WishlistVm.WishlistViewModel.FetchWishlistItems` | app/src/main/java/com/example/thriftr/viewModel/WishlistViewModel.kt:38-49 | success: the fetched products are shown, each fetched id is visible and other ids keep their flag; failure: the error shows, flags kept |
| `WishlistVm.WishlistViewModel.RemoveFromWishlist` | app/src/main/java/com/example/thriftr/viewModel/WishlistViewModel.kt:59-89 | the id is hidden; a listed id is also tombstoned, dropped from the list and given one fresh deletion job; otherwise nothing but visibility changes; other ids are untouched |
| `WishlistVm.WishlistViewModel.UndoRemoveFromWishlist` | app/src/main/java/com/example/thriftr/viewModel/WishlistViewModel.kt:91-106 | without a tombstone nothing changes; with one the job is cancelled, the product re-appended at the end while the list is shown, made visible, and the tombstone and job dropped |
| `WishlistVm.WishlistViewModel.DeletionTimerFires` | app/src/main/java/com/example/thriftr/viewModel/WishlistViewModel.kt:78-85 | a running job deletes remotely only if the tombstone is still there, then neither tombstone nor job entry remains; a cancelled job does nothing |
| `WishlistVm.WishlistViewModel.ClearWishlist` | app/src/main/java/com/example/thriftr/viewModel/WishlistViewModel.kt:108-125 | success: empty list, empty maps, and every job in the job map cancelled; failure: the error shows and everything else is kept |
| `HomeVm.SubsequenceNoLonger` | app/src/main/java/com/example/thriftr/viewModel/HomeViewModel.kt:92-94 | a subsequence is no longer than its source |
| `HomeVm.FilterProducts` | app/src/main/java/com/example/thriftr/viewModel/HomeViewModel.kt:104-116 | exactly the products passing every active filter, each as often as in the input, in order: a subsequence of the input |
| `HomeVm.NoFilterKeepsAll` | app/src/main/java/com/example/thriftr/viewModel/HomeViewModel.kt:106-108 | with no active filter the list is unchanged |
| `HomeVm.InsertPermutes` | app/src/main/java/com/example/thriftr/viewModel/HomeViewModel.kt:95-101 | inserting adds exactly the one element |
| `HomeVm.InsertSorted` | app/src/main/java/com/example/thriftr/viewModel/HomeViewModel.kt:95-101 | inserting into a sorted list keeps it sorted |
| `HomeVm.SortPermutes` | app/src/main/java/com/example/thriftr/viewModel/HomeViewModel.kt:95-101 | sorting is a permutation of its input |
| `HomeVm.SortSorted` | app/src/main/java/com/example/thriftr/viewModel/HomeViewModel.kt:96-98 | the sorted list is non-decreasing in the sort key |
| `HomeVm.SortStable` | app/src/main/java/com/example/thriftr/viewModel/HomeViewModel.kt:95-101 | elements with equal keys keep their relative order |
| `HomeVm.SortKeepsSorted` | app/src/main/java/com/example/thriftr/viewModel/HomeViewModel.kt:95-101 | sorting an already ordered list leaves it as it is |
| `HomeVm.ApplySortAndFilter` | app/src/main/java/com/example/thriftr/viewModel/HomeViewModel.kt:92-102 | never longer than its input (its meaning is proved in SortAndFilterSpec) |
| `HomeVm.SortAndFilterSpec` | app/src/main/java/com/example/thriftr/viewModel/HomeViewModel.kt:92-116 | exactly the products passing the filters, as often as the filter keeps them; a subsequence without a sort; non-decreasing price for low-to-high and non-increasing for high-to-low |
| `HomeVm.NoSortNoFilterIsIdentity` | app/src/main/java/com/example/thriftr/viewModel/HomeViewModel.kt:92-108 | no filter and no sort return the input |
| `HomeVm.SortAndFilterStable` | app/src/main/java/com/example/thriftr/viewModel/HomeViewModel.kt:95-101 | products of one price come out in the order the filter left them |
| `HomeVm.ResortIsIdentity` | app/src/main/java/com/example/thriftr/viewModel/HomeViewModel.kt:150-155 | the sorted result passes the filters again and sorting it again with no filter changes nothing |
| `HomeVm.Toggle` | app/src/main/java/com/example/thriftr/viewModel/HomeViewModel.kt:143-148 | the option flips membership and the other options stay |
| `HomeVm.ToggleTwice` | app/src/main/java/com/example/thriftr/viewModel/HomeViewModel.kt:143-148 | toggling the same option twice restores the set |
| `HomeVm.UpdatePagination` | app/src/main/java/com/example/thriftr/viewModel/HomeViewModel.kt:394-400 | the target entry goes through the update (default when absent); every other entry is unchanged |
| `HomeVm.NewOnly` | app/src/main/java/com/example/thriftr/viewModel/HomeViewModel.kt:354-357 | exactly the page's products whose id is not among the existing ids, each as often as in the page, in order |
| `HomeVm.MergeKeepsPrefix` | app/src/main/java/com/example/thriftr/viewModel/HomeViewModel.kt:354-363 | the old list is a prefix of the merged list, nothing appended has an old id, and every page product with a new id is appended |
| `HomeVm.MergeKeepsPageDuplicates` | app/src/main/java/com/example/thriftr/viewModel/HomeViewModel.kt:354-363 | every product with an unseen id is appended as often as the page repeats it: the page itself is not de-duplicated |
| `HomeVm.DistinctFrom` | app/src/main/java/com/example/thriftr/viewModel/HomeViewModel.kt:199 | kept products were listed with unseen ids, every unseen id is kept once, ids pairwise distinct, a subsequence of the input |
| `HomeVm.DistinctById` | app/src/main/java/com/example/thriftr/viewModel/HomeViewModel.kt:199 | kept products were listed, every id is kept, and ids are pairwise distinct |
| `HomeVm.DistinctKeepsFirst` | app/src/main/java/com/example/thriftr/viewModel/HomeViewModel.kt:199 | the product kept for an id is its first occurrence |
| `HomeVm.CachedKeys` | app/src/main/java/com/example/thriftr/viewModel/HomeViewModel.kt:196 | the cache gains exactly the listed ids; every other entry is unchanged |
| `HomeVm.CachedLastWins` | app/src/main/java/com/example/thriftr/viewModel/HomeViewModel.kt:196 | the cached product for an id is the last listed product with it |
| `HomeVm.CategoryName` | app/src/main/java/com/example/thriftr/viewModel/HomeViewModel.kt:188 | the home tab queries every category; another tab its own name |
| `HomeVm.PageOf` | app/src/main/java/com/example/thriftr/viewModel/HomeViewModel.kt:190-193 | a failed fetch reads as an empty page; a successful one as its products |
| `HomeVm.Listed` | app/src/main/java/com/example/thriftr/viewModel/HomeViewModel.kt:385 | a tab without products lists none |
| `HomeVm.HomeViewModel.constructor` | app/src/main/java/com/example/thriftr/viewModel/HomeViewModel.kt:250-265 | every tab has the default pagination state, the screen is loading, nothing is cached, filtered, sorted or requested |
| `HomeVm.HomeViewModel.CacheProducts` | app/src/main/java/com/example/thriftr/viewModel/HomeViewModel.kt:235-237 | the cache becomes Cached of the products; nothing else changes |
| `HomeVm.HomeViewModel.UpdateUiStateWithLoadedData` | app/src/main/java/com/example/thriftr/viewModel/HomeViewModel.kt:384-392 | the screen shows the tab's sorted and filtered products, with the best deals on the home tab only |
| `HomeVm.HomeViewModel.LoadCategoryData` | app/src/main/java/com/example/thriftr/viewModel/HomeViewModel.kt:178-224 | while loading nothing changes; a bad index shows the error; otherwise page 1 is requested and cached, stored without repeated ids, the tab's pagination becomes (not loading, page 1, more iff a full page) and the tab is shown; the flag ends false |
| `HomeVm.HomeViewModel.StoreFirstPage` | app/src/main/java/com/example/thriftr/viewModel/HomeViewModel.kt:196-208 | the first page is cached, deduplicated and recorded as page 1 |
| `HomeVm.HomeViewModel.LoadInitialData` | app/src/main/java/com/example/thriftr/viewModel/HomeViewModel.kt:288-307 | as written: unless loading, the best deals are fetched when missing and the load is marked done, but no tab is loaded and the screen is left as it was |
| `HomeVm.HomeViewModel.LoadInitialDataReleasingFlag` | app/src/main/java/com/example/thriftr/viewModel/HomeViewModel.kt:288-307 | with the flag released first, the best deals and then the home tab's first page are requested; the page is cached, stored without repeated ids, starts tab 0's pagination at page 1 and is shown; a call while a load runs changes nothing |
| `HomeVm.HomeViewModel.LoadReleasingFlag` | app/src/main/java/com/example/thriftr/viewModel/HomeViewModel.kt:288-307 | past the guard: the missing best deals and then the home tab's first page are requested; the page is cached, stored without repeated ids, starts tab 0's pagination at page 1 and is shown, and the flag ends false |
| `HomeVm.HomeViewModel.FetchDataIfNeeded` | app/src/main/java/com/example/thriftr/viewModel/HomeViewModel.kt:282-286 | once the load is done nothing is requested again; a call while a load runs changes nothing; a first call requests only the missing best deals and marks the load done; screen, tabs, pagination and cache are never changed |
| `HomeVm.HomeViewModel.SelectCategory` | app/src/main/java/com/example/thriftr/viewModel/HomeViewModel.kt:309-327 | the selected index changes nothing; otherwise it is selected and a loaded tab is shown from its products; while loading the screen shows Loading; a bad index shows the error and requests, caches and paginates nothing; otherwise page 1 is requested, cached and shown without repeated ids, and the flag ends false |
| `HomeVm.HomeViewModel.LoadMoreProducts` | app/src/main/java/com/example/thriftr/viewModel/HomeViewModel.kt:329-381 | a loading tab or one without more data changes nothing; a bad index only clears the flag; otherwise the next page is requested, cached, its new ids appended, the page advanced with more iff a full page, and the tab shown |
| `HomeVm.HomeViewModel.LaunchLoadMore` | app/src/main/java/com/example/thriftr/viewModel/HomeViewModel.kt:337-380 | a bad index leaves only the tab's state restored; otherwise the next page is stored and shown (LoadedMore) |
| `HomeVm.HomeViewModel.LoadNextPage` | app/src/main/java/com/example/thriftr/viewModel/HomeViewModel.kt:340-374 | the request is logged, the page cached, its new ids appended, the page advanced with more iff a full page, and the tab shown |
| `HomeVm.HomeViewModel.StoreNextPage` | app/src/main/java/com/example/thriftr/viewModel/HomeViewModel.kt:350-371 | the page is cached, its new ids appended to the tab, and the tab's page advanced with more data iff a full page |
| `HomeVm.HomeViewModel.ReapplySortAndFilter` | app/src/main/java/com/example/thriftr/viewModel/HomeViewModel.kt:123-140 | shown search results are re-sorted as they are; otherwise a shown tab is rebuilt from its products keeping its best deals; otherwise nothing changes |
| `HomeVm.HomeViewModel.SetSortOption` | app/src/main/java/com/example/thriftr/viewModel/HomeViewModel.kt:119-141 | the sort becomes the option and the screen is re-sorted by ReapplySortAndFilter |
| `HomeVm.HomeViewModel.ToggleFilterOption` | app/src/main/java/com/example/thriftr/viewModel/HomeViewModel.kt:143-169 | the filter set becomes Toggle of it and the screen is re-filtered |
| `HomeVm.HomeViewModel.PerformSearch` | app/src/main/java/com/example/thriftr/viewModel/HomeViewModel.kt:402-419 | while loading nothing changes; otherwise the results are cached and shown sorted and filtered, or "No results found" when there are none; the flag ends false |
| `HomeVm.FirstVisitStaysLoading` | app/src/main/java/com/example/thriftr/viewModel/HomeViewModel.kt:282-307 | as written, the first visit marks the load done, requests only the best deals, and leaves the screen loading with no tab products |
| `HomeVm.FirstVisitShowsHome` | app/src/main/java/com/example/thriftr/viewModel/HomeViewModel.kt:178-216 | with the flag released, the first visit requests the best deals and the home tab and shows the home tab without repeated ids beside the best deals |
| `ProductRepo.PageOffset` | app/src/main/java/com/example/thriftr/repository/ProductRepository.kt:81 | 0 for page 1 and below, `(page - 1) * 4` from page 1 on; never negative |
| `ProductRepo.PageOffsetStep` | app/src/main/java/com/example/thriftr/repository/ProductRepository.kt:81 | consecutive pages start exactly one page apart |
| `ProductRepo.Filters` | app/src/main/java/com/example/thriftr/repository/ProductRepository.kt:78-79 | an equality on exactly the given category and an inequality on exactly the given exclusion, one query each, nothing else |
| `ProductRepo.QueryList` | app/src/main/java/com/example/thriftr/repository/ProductRepository.kt:77-83 | the filters first (the category's equality leading), then `limit(4)` and the page's offset as the last two |
| `ProductRepo.BestDealsQueries` | app/src/main/java/com/example/thriftr/repository/ProductRepository.kt:40-46 | exactly the "Best Deals" equality, `limit(4)` and the page's offset |
| `ProductRepo.Matching` | app/src/main/java/com/example/thriftr/repository/ProductRepository.kt:85-89 | never longer than the store; exactly the documents passing every query |
| `ProductRepo.Window` | app/src/main/java/com/example/thriftr/repository/ProductRepository.kt:80-81 | at most n elements, each from the list |
| `ProductRepo.Run` | app/src/main/java/com/example/thriftr/repository/ProductRepository.kt:85-89 | every returned document is in the store and passes every query |
| `ProductRepo.RunQueryList` | app/src/main/java/com/example/thriftr/repository/ProductRepository.kt:77-89 | a category query returns the page's window of four over the category's documents |
| `ProductRepo.PagesTile` | app/src/main/java/com/example/thriftr/repository/ProductRepository.kt:81 | two consecutive pages together are the window of eight from the first page's offset |
| `ProductRepo.WindowsAdjacent` | app/src/main/java/com/example/thriftr/repository/ProductRepository.kt:80-81 | two adjacent windows of n make one window of 2n |
| `ProductRepo.ShortPageIsLast` | app/src/main/java/com/example/thriftr/repository/ProductRepository.kt:80-81 | a page shorter than four is followed by an empty page |
| `ProductRepo.ProductsOf` | app/src/main/java/com/example/thriftr/repository/ProductRepository.kt:89 | one product per document, each the document decoded, in order |
| `ProductRepo.CategoryFiltersHold` | app/src/main/java/com/example/thriftr/repository/ProductRepository.kt:77-89 | a product from a category query has that category and not the excluded one (unless the exclusion is the decoder's default) |
| `ProductRepo.FileNameInjective` | app/src/main/java/com/example/thriftr/repository/ProductRepository.kt:126 | different indices give different file names |
| `ProductRepo.Uploaded` | app/src/main/java/com/example/thriftr/repository/ProductRepository.kt:123-156 | never more stored files than images considered |
| `ProductRepo.UploadedNamed` | app/src/main/java/com/example/thriftr/repository/ProductRepository.kt:126-147 | every stored file went to the given bucket as `image/jpeg`, under no name of an index n or above |
| `ProductRepo.UploadedNamesDistinct` | app/src/main/java/com/example/thriftr/repository/ProductRepository.kt:126 | the stored files have pairwise distinct names |
| `ProductRepo.UploadedAll` | app/src/main/java/com/example/thriftr/repository/ProductRepository.kt:123-156 | when every upload succeeds every image is stored |
| `ProductRepo.SavedProductReadsBack` | app/src/main/java/com/example/thriftr/repository/ProductRepository.kt:161-177 | a saved product decodes to itself with the new id and the saved defaults; the decoder's defaults never apply |
| `ProductRepo.ProductRepository.constructor` | app/src/main/java/com/example/thriftr/repository/ProductRepository.kt:29-32 | reachability, project and bucket ids and documents as given; no file stored |
| `ProductRepo.ProductRepository.FetchProductsByCategory` | app/src/main/java/com/example/thriftr/repository/ProductRepository.kt:48-54 | a failure exactly when unreachable; otherwise at most four products, each of the asked category and not of the exclusion ("Best Deals" by default) |
| `ProductRepo.ProductRepository.FetchBestDeals` | app/src/main/java/com/example/thriftr/repository/ProductRepository.kt:40-46 | a failure exactly when unreachable; otherwise at most four products, all of "Best Deals" |
| `ProductRepo.ProductRepository.ImageUrlInjective` | app/src/main/java/com/example/thriftr/repository/ProductRepository.kt:151 | different files have different URLs |
| `ProductRepo.ProductRepository.UrlsOf` | app/src/main/java/com/example/thriftr/repository/ProductRepository.kt:150-152 | one URL per stored file, in order |
| `ProductRepo.ProductRepository.UploadImagesToAppwrite` | app/src/main/java/com/example/thriftr/repository/ProductRepository.kt:114-159 | the store gains exactly the Uploaded files; the URLs are theirs, in input order, at most one per image |
| `ProductRepo.ProductRepository.SaveProductToCollection` | app/src/main/java/com/example/thriftr/repository/ProductRepository.kt:161-195 | when the store answers it gains one document under the fresh id holding the defaulted fields; otherwise nothing is written |
| `ProductData.StringOr` | app/src/main/java/com/example/thriftr/data/Product.kt:28-29 | the string stored under the key, else the default |
| `ProductData.NumberOf` | app/src/main/java/com/example/thriftr/data/Product.kt:30-33 | the number stored under the key, else none |
| `ProductData.StringListOf` | app/src/main/java/com/example/thriftr/data/Product.kt:34-36 | the string elements of a list field, in order; empty otherwise |
| `ProductData.ToProduct` | app/src/main/java/com/example/thriftr/data/Product.kt:25-40 | the id is the document's; the discount is set exactly when the field holds a number; description, details, colours and sizes are never null |
| `ProductData.ToProductDefaults` | app/src/main/java/com/example/thriftr/data/Product.kt:28-38 | a document whose fields are all null decodes to "Unknown", "Uncategorized", price 0, no free shipping, stock 1, no discount, "No description", "No details available" and empty lists |
| `ProductData.ToProductStringLists` | app/src/main/java/com/example/thriftr/data/Product.kt:34-36 | a list field of strings decodes to exactly those strings, in order |
| `UserData.ToMap` | app/src/main/java/com/example/thriftr/data/User.kt:15-26 | the five fixed keys always, `ImagePath` exactly when the path is set, and no other key |
| `UserData.RequiredString` | app/src/main/java/com/example/thriftr/data/User.kt:36-39 | a value exactly when the field holds a string |
| `UserData.FromMap` | app/src/main/java/com/example/thriftr/data/User.kt:33-47 | a user exactly when the four required fields are strings; a path exactly when `ImagePath` is a string; no addresses when `SavedAddresses` is not a list |
| `UserData.FromMapToMap` | app/src/main/java/com/example/thriftr/data/User.kt:15-47 | `fromMap(toMap(u)) == u` for every user |
| `UserData.GetAddresses` | app/src/main/java/com/example/thriftr/data/User.kt:28 | never more addresses than saved strings |
| `UserData.FirstDefault` | app/src/main/java/com/example/thriftr/data/User.kt:30 | none exactly when no address is default; otherwise a default address with no default before it |
| `UserData.GetDefaultAddress` | app/src/main/java/com/example/thriftr/data/User.kt:30 | a decoded default address, or none exactly when no decoded address is default |
| `ProfileVm.ClearedDefaults` | app/src/main/java/com/example/thriftr/viewModel/ProfileViewModel.kt:115 | same length, same addresses, none default |
| `ProfileVm.WithAdded` | app/src/main/java/com/example/thriftr/viewModel/ProfileViewModel.kt:106-121 | one longer with the new address last; with a default the others are kept with the flag cleared, else the others are untouched |
| `ProfileVm.AddedDefaultIsOnlyDefault` | app/src/main/java/com/example/thriftr/viewModel/ProfileViewModel.kt:114-116 | an added default is the only default of the new list |
| `ProfileVm.Replaced` | app/src/main/java/com/example/thriftr/viewModel/ProfileViewModel.kt:90-102 | same length as the list |
| `ProfileVm.WithUpdated` | app/src/main/java/com/example/thriftr/viewModel/ProfileViewModel.kt:75-104 | an add when the list is empty or lacks the id; otherwise same length, the entries with the id become the update, and the others lose the flag for a default update and are untouched otherwise |
| `ProfileVm.UpdatedDefaultIsOnlyDefault` | app/src/main/java/com/example/thriftr/viewModel/ProfileViewModel.kt:92-101 | after a default update every default entry is the update, and the update is listed |
| `ProfileVm.UpdateIsIdempotent` | app/src/main/java/com/example/thriftr/viewModel/ProfileViewModel.kt:75-104 | the same update twice is the update once |
| `ProfileVm.WithoutId` | app/src/main/java/com/example/thriftr/viewModel/ProfileViewModel.kt:124-126 | never longer; every entry left was listed and has another id |
| `ProfileVm.DeleteKeepsOthers` | app/src/main/java/com/example/thriftr/viewModel/ProfileViewModel.kt:124-126 | every entry with another id is kept |
| `ProfileVm.DeleteSplits` | app/src/main/java/com/example/thriftr/viewModel/ProfileViewModel.kt:124-126 | deleting works on each half of a list separately |
| `ProfileVm.DeleteAbsentId` | app/src/main/java/com/example/thriftr/viewModel/ProfileViewModel.kt:124-126 | deleting an absent id changes nothing |
| `ProfileVm.DeleteUndoesAdd` | app/src/main/java/com/example/thriftr/viewModel/ProfileViewModel.kt:106-126 | deleting an address just added under a new id restores the list, with the defaults cleared when it was a default |
| `ProfileVm.DeleteAfterUpdate` | app/src/main/java/com/example/thriftr/viewModel/ProfileViewModel.kt:75-126 | updating an existing non-default entry then deleting its id is deleting the id |
| `ProfileVm.SavedUser` | app/src/main/java/com/example/thriftr/viewModel/ProfileViewModel.kt:139-148 | same id, email and path; the edited names; one saved string per address |
| `ProfileVm.SavedAddressesReadBack` | app/src/main/java/com/example/thriftr/viewModel/ProfileViewModel.kt:139-148 | with a round-tripping codec the saved profile reads back the same addresses, in order |
| `ProfileVm.ProfileViewModel.constructor` | app/src/main/java/com/example/thriftr/viewModel/ProfileViewModel.kt:28-49 | loading state, the empty user, empty fields and address book, nothing looked up or saved |
| `ProfileVm.ProfileViewModel.AddAddress` | app/src/main/java/com/example/thriftr/viewModel/ProfileViewModel.kt:106-121 | the address book becomes WithAdded |
| `ProfileVm.ProfileViewModel.UpdateAddress` | app/src/main/java/com/example/thriftr/viewModel/ProfileViewModel.kt:75-104 | the address book becomes WithUpdated |
| `ProfileVm.ProfileViewModel.DeleteAddress` | app/src/main/java/com/example/thriftr/viewModel/ProfileViewModel.kt:124-126 | the address book becomes WithoutId |
| `ProfileVm.ProfileViewModel.LoadUserData` | app/src/main/java/com/example/thriftr/viewModel/ProfileViewModel.kt:58-73 | the lookup uses the id or "NULL"; a found user fills the names, the path ("NULL" when unset) and the decoded addresses and shows Success; otherwise the error shows and the fields stay |
| `ProfileVm.ProfileViewModel.FetchProfileIfNeeded` | app/src/main/java/com/example/thriftr/viewModel/ProfileViewModel.kt:51-56 | a shown profile is kept with its fields and not looked up; otherwise the id is looked up, a found user fills the names, image path and decoded addresses and is shown, and a failed lookup shows its error with the fields kept |
| `ProfileVm.ProfileViewModel.SaveProfile` | app/src/main/java/com/example/thriftr/viewModel/ProfileViewModel.kt:128-162 | the flag ends false; without a loaded profile "User not loaded" and nothing sent or changed; otherwise SavedUser is sent, then "Failed to save profile" with the fields kept, or a reload whose found user fills the fields and whose failure shows its error with the fields kept |
| `ProfileVm.SaveThenReloadKeepsAddresses` | app/src/main/java/com/example/thriftr/viewModel/ProfileViewModel.kt:128-152 | saving then reloading what the backend stored keeps the edited address book and shows the saved user |
| `AdminVm.AcceptsAmountIffPattern` | app/src/main/java/com/example/thriftr/viewModel/AdminViewModel.kt:83 | the one-pass acceptor accepts exactly the strings `^\d+(\.\d{0,2})?$` matches |
| `AdminVm.AmountOrNull` | app/src/main/java/com/example/thriftr/viewModel/AdminViewModel.kt:160 | a value exactly for accepted text; empty text has none |
| `AdminVm.FormattedAmountReadsBack` | app/src/main/java/com/example/thriftr/viewModel/AdminViewModel.kt:160 | every amount written with two decimals is accepted and reads back as itself |
| `AdminVm.IndexOf` | app/src/main/java/com/example/thriftr/viewModel/AdminViewModel.kt:70 | the first index holding the element, -1 exactly when it is absent |
| `AdminVm.WithoutFirst` | app/src/main/java/com/example/thriftr/viewModel/AdminViewModel.kt:119 | an absent element changes nothing; otherwise one shorter with one copy of the element fewer |
| `AdminVm.RemoveAfterAppend` | app/src/main/java/com/example/thriftr/viewModel/AdminViewModel.kt:63-71 | removing what was just appended when it was absent restores the list |
| `AdminVm.RemoveKeepsOrder` | app/src/main/java/com/example/thriftr/viewModel/AdminViewModel.kt:119 | the entries before the first occurrence, then those after it |
| `AdminVm.RemoveKeepsLaterCopies` | app/src/main/java/com/example/thriftr/viewModel/AdminViewModel.kt:119 | removing an element listed twice keeps its later copy |
| `AdminVm.RemoveKeepsNoDuplicates` | app/src/main/java/com/example/thriftr/viewModel/AdminViewModel.kt:69-71 | removing from a duplicate-free list keeps it duplicate-free |
| `AdminVm.NonEmptyOnly` | app/src/main/java/com/example/thriftr/viewModel/AdminViewModel.kt:153 | every part kept is non-empty and was a part, and every non-empty part is kept exactly as often as it occurs |
| `AdminVm.TrimAll` | app/src/main/java/com/example/thriftr/viewModel/AdminViewModel.kt:152 | one part per part, the k-th being the trim of the k-th |
| `AdminVm.TrimmedPartsClean` | app/src/main/java/com/example/thriftr/viewModel/AdminViewModel.kt:151-153 | trimming comma-free parts leaves comma-free parts with nothing to trim |
| `AdminVm.ParseSizes` | app/src/main/java/com/example/thriftr/viewModel/AdminViewModel.kt:151-154 | every parsed size is non-empty, comma-free and starts and ends with non-whitespace (ParseJoinedSizes shows typed sizes are kept) |
| `AdminVm.ChipSizesOfClean` | app/src/main/java/com/example/thriftr/utils/components/productdetailsscreen/SizeChips.kt:29-31 | clean sizes are read back by the product page unchanged |
| `AdminVm.ParsedSizesReadBack` | app/src/main/java/com/example/thriftr/utils/components/productdetailsscreen/SizeChips.kt:29-31 | the product page shows exactly the sizes the form parsed |
| `AdminVm.SplitJoinSizes` | app/src/main/java/com/example/thriftr/viewModel/AdminViewModel.kt:151 | comma-free sizes joined by `,` split back into those sizes |
| `AdminVm.NonEmptyOnlyOfNonEmpty` | app/src/main/java/com/example/thriftr/viewModel/AdminViewModel.kt:153 | a list without empty parts passes the filter unchanged |
| `AdminVm.ParseJoinedSizes` | app/src/main/java/com/example/thriftr/viewModel/AdminViewModel.kt:151-154 | clean sizes typed as a comma-separated list are parsed into exactly those sizes, in order |
| `AdminVm.ParseEmpty` | app/src/main/java/com/example/thriftr/viewModel/AdminViewModel.kt:151-154 | an empty sizes text gives no sizes |
| `AdminVm.ColorReadsBack` | app/src/main/java/com/example/thriftr/utils/components/productdetailsscreen/ColorChips.kt:31-37 | a colour with no ':' in its name decodes and keeps its name; with no ':' in the code either it decodes to itself |
| `AdminVm.ColonInNameIsMisread` | app/src/main/java/com/example/thriftr/utils/components/productdetailsscreen/ColorChips.kt:31-37 | a name holding ':' reads back cut at its first ':', with the name's text after it taken as the code and the real code lost |
| `AdminVm.EncodeColors` | app/src/main/java/com/example/thriftr/viewModel/AdminViewModel.kt:162 | one `name:hex` string per colour, in order |
| `AdminVm.ColorsReadBack` | app/src/main/java/com/example/thriftr/utils/components/productdetailsscreen/ColorChips.kt:31-37 | colours without ':' read back as the chosen list |
| `AdminVm.UnlessBlank` | app/src/main/java/com/example/thriftr/viewModel/AdminViewModel.kt:166-167 | none exactly for blank text, else the text |
| `AdminVm.AdminViewModel.constructor` | app/src/main/java/com/example/thriftr/viewModel/AdminViewModel.kt:30-60 | every field at its start value, no colours, empty sizes text, Idle |
| `AdminVm.AdminViewModel.AddColor` | app/src/main/java/com/example/thriftr/viewModel/AdminViewModel.kt:63-67 | an absent colour is appended, a present one changes nothing; the list stays duplicate-free |
| `AdminVm.AdminViewModel.RemoveColor` | app/src/main/java/com/example/thriftr/viewModel/AdminViewModel.kt:69-71 | the colours become WithoutFirst |
| `AdminVm.AdminViewModel.UpdateSizes` | app/src/main/java/com/example/thriftr/viewModel/AdminViewModel.kt:74-76 | the sizes text is replaced |
| `AdminVm.AdminViewModel.UpdateProductName` | app/src/main/java/com/example/thriftr/viewModel/AdminViewModel.kt:78-80 | the name is replaced |
| `AdminVm.AdminViewModel.UpdatePrice` | app/src/main/java/com/example/thriftr/viewModel/AdminViewModel.kt:82-86 | empty or pattern-matching text is taken, anything else leaves the price unchanged |
| `AdminVm.AdminViewModel.UpdateStock` | app/src/main/java/com/example/thriftr/viewModel/AdminViewModel.kt:88-90 | the stock becomes the argument when it is 1 or more, and 1 otherwise |
| `AdminVm.AdminViewModel.UpdateFreeShipping` | app/src/main/java/com/example/thriftr/viewModel/AdminViewModel.kt:92-94 | the flag is replaced |
| `AdminVm.AdminViewModel.UpdateDiscount` | app/src/main/java/com/example/thriftr/viewModel/AdminViewModel.kt:96-100 | the same acceptance rule as the price |
| `AdminVm.AdminViewModel.UpdateDescription` | app/src/main/java/com/example/thriftr/viewModel/AdminViewModel.kt:102-104 | the description is replaced |
| `AdminVm.AdminViewModel.UpdateDetails` | app/src/main/java/com/example/thriftr/viewModel/AdminViewModel.kt:106-108 | the details are replaced |
| `AdminVm.AdminViewModel.UpdateCategory` | app/src/main/java/com/example/thriftr/viewModel/AdminViewModel.kt:110-112 | the category is replaced |
| `AdminVm.AdminViewModel.AddImage` | app/src/main/java/com/example/thriftr/viewModel/AdminViewModel.kt:114-116 | the image is appended |
| `AdminVm.AdminViewModel.RemoveImage` | app/src/main/java/com/example/thriftr/viewModel/AdminViewModel.kt:118-120 | only the first occurrence is removed |
| `AdminVm.AdminViewModel.Draft` | app/src/main/java/com/example/thriftr/viewModel/AdminViewModel.kt:157-170 | the product built from the form: parsed sizes, encoded colours, hundredths amounts, blank texts as none |
| `AdminVm.AdminViewModel.SaveProduct` | app/src/main/java/com/example/thriftr/viewModel/AdminViewModel.kt:129-180 | an invalid form fails and changes nothing; a compression failure shows its message; otherwise the uploads are stored, and no URL is "Failed to upload images" while URLs save Draft and show Success |
| `AdminVm.AdminViewModel.ResetState` | app/src/main/java/com/example/thriftr/viewModel/AdminViewModel.kt:182-193 | scalar fields and images back to their start values, state Idle; colours and sizes text unchanged |
| `AdminVm.AddThenRemoveColor` | app/src/main/java/com/example/thriftr/viewModel/AdminViewModel.kt:63-71 | choosing a new colour and removing it gives back the colours chosen before |
| `SettingsVm.EffectiveDarkTheme` | app/src/main/java/com/example/thriftr/MainActivity.kt:66 | the preference when set, otherwise the system's setting |
| `SettingsVm.PreferenceDecides` | app/src/main/java/com/example/thriftr/MainActivity.kt:66 | a set preference decides the theme whatever the system says; no preference follows the system |
| `SettingsVm.SettingsViewModel.constructor` | app/src/main/java/com/example/thriftr/viewModel/SettingsViewModel.kt:11-14 | no theme preference and notifications off |
| `SettingsVm.SettingsViewModel.SetDarkTheme` | app/src/main/java/com/example/thriftr/viewModel/SettingsViewModel.kt:17-19 | the preference becomes the choice and decides the theme for every system setting |
| `SettingsVm.SettingsViewModel.ResetToSystemTheme` | app/src/main/java/com/example/thriftr/viewModel/SettingsViewModel.kt:21-23 | no preference: the theme follows the system |
| `SettingsVm.SettingsViewModel.ToggleNotifications` | app/src/main/java/com/example/thriftr/viewModel/SettingsViewModel.kt:25-27 | the switch is exactly the argument; the theme preference is unchanged |
| `OrderRepo.StoredJson` | app/src/main/java/com/example/thriftr/repository/OrderRepository.kt:27 | a non-list `orders` field gives no strings; otherwise its string elements |
| `OrderRepo.StoredJsonOfWritten` | app/src/main/java/com/example/thriftr/repository/OrderRepository.kt:53-58 | a written order list reads back as written |
| `OrderRepo.ReplaceById` | app/src/main/java/com/example/thriftr/repository/OrderRepository.kt:94-96 | same length; exactly the orders with the id become the update, the others stay in place |
| `OrderRepo.ReplaceUnknownId` | app/src/main/java/com/example/thriftr/repository/OrderRepository.kt:94-96 | an id no order has changes nothing |
| `OrderRepo.ReplaceIdempotent` | app/src/main/java/com/example/thriftr/repository/OrderRepository.kt:94-96 | replacing twice is replacing once |
| `OrderRepo.ReplacedOrdersAreTheUpdate` | app/src/main/java/com/example/thriftr/repository/OrderRepository.kt:94-96 | afterwards every order with the id is the update |
| `OrderRepo.ReencodeDecoded` | app/src/main/java/com/example/thriftr/repository/OrderRepository.kt:91-99 | a fully decoded list re-encodes to itself under a canonical codec |
| `OrderRepo.DecodeEveryAppend` | app/src/main/java/com/example/thriftr/repository/OrderRepository.kt:51 | appending an encoding appends the value to a decodable list and keeps an undecodable one undecodable |
| `OrderRepo.OrderRepository.constructor` | app/src/main/java/com/example/thriftr/repository/OrderRepository.kt:14-18 | codec, flags and documents as given |
| `OrderRepo.OrderRepository.FetchOrders` | app/src/main/java/com/example/thriftr/repository/OrderRepository.kt:20-34 | no readable document or any undecodable entry gives an empty list; otherwise every stored entry decoded, in order |
| `OrderRepo.OrderRepository.SaveOrder` | app/src/main/java/com/example/thriftr/repository/OrderRepository.kt:36-77 | an existing document gets the order appended; a missing one is created holding just it; otherwise the error is rethrown and nothing is written |
| `OrderRepo.OrderRepository.UpdateOrder` | app/src/main/java/com/example/thriftr/repository/OrderRepository.kt:79-113 | succeeds exactly when the document is readable, fully decodable and updatable, and then writes ReplaceById encoded; otherwise nothing is written |
| `OrderRepo.SaveThenFetch` | app/src/main/java/com/example/thriftr/repository/OrderRepository.kt:36-58 | after a save the fetched orders are the earlier ones followed by the new one |
| `OrderRepo.UpdateUnknownIdRewritesSame` | app/src/main/java/com/example/thriftr/repository/OrderRepository.kt:93-107 | updating an id no stored order has writes back exactly the stored strings |

## Left out

- The Compose screens, navigation and the animation bookkeeping: `markProductAnimated`, `isProductAnimated` and `markCategoryAnimationComplete` in HomeViewModel.kt:46-56, and `markAnimated` in ProfileViewModel.kt:40-42. They only record which cards have already played their animation.
- `updateSearchQuery`, `clearSearchResults` and the search collector in the home view model's `init` (HomeViewModel.kt:171-174, 230-233, 268-278). They are a flow debounce in front of `performSearch`. `PerformSearch` is modelled and takes the search answer as a parameter.
- `getCachedProduct` (HomeViewModel.kt:226-228): a map lookup. The cache it reads is modelled (`CachedKeys`, `CachedLastWins`).
- `searchProducts` (ProductRepository.kt:57-70) is not modelled. Its full-text `Query.search` depends on the backend's search index. The home view model receives the search results as a parameter.
- `isItemInCart` (CartViewModel.kt:147-156), `fetchWishlistIfNeeded` (WishlistViewModel.kt:32-36) and `uploadProfileImage` (ProfileViewModel.kt:164-182) only forward to repositories outside this model. Their results are already inputs of the modelled operations.
- The wishlist, profile and auth repositories are not part of this model. Their answers are parameters: `ClearOutcome`, `GetUserOutcome` and the signed-in user id.
- `compressImages` (ProductRepository.kt:93-110) is bitmap work. `SaveProduct` takes its outcome as a parameter: the compressed files or the exception's message.
- `UUID.randomUUID()` and `ID.unique()` are parameters (`newId`, `randomId`, the file ids the store hands out).
- Coroutine scheduling, `delay` and cancellation timing are modelled as explicit events (`Schedule`/`FireUpdate`, `DeletionTimerFires`). Operations never interleave within one call.
- Prices are abstract integers. A product's `price` and `discount` are `Float` in the source (Product.kt:14, 17, decoded with `toFloat()`), and an order's `total` and item `price` are `Double`. The admin form's amounts are exact hundredths, so no floating-point rounding is modelled.
- The kotlinx JSON encoders are the abstract `Codec`. Their canonical and lossless behaviour is stated as assumptions (`RoundTrips`, `Canonical`) wherever a property needs it.
- The `Int` page arithmetic in `queryProducts` is unbounded here. The overflow of `(page - 1) * 4` beyond 2^31 is not modelled.
- HomeVm.HomeViewModel.LoadCategoryData, SelectCategory, LoadMoreProducts and PerformSearch receive the repository's answer as a parameter and log the request they would make (`requests`). This keeps the query model out of the view model's proofs. `ProductRepo` proves what each request returns.
- HomeVm.FilterProducts: the Kotlin `discount!!` of the on-sale filter (HomeViewModel.kt:114) throws for a product without a discount when another filter has not already excluded it. The model requires such inputs not to occur (`AllDecidable`) and does not model the crash.
- UploadImagesToAppwrite: the files are recorded in one write after the loop rather than one at a time inside it. The resulting store and URL list are the same.
- CartVm.CartViewModel.UpdateQuantity: the Kotlin code looks the product up lazily, only when the line is appended. The model looks it up first. The lookup is a pure read, so the result is the same.
- CartVm.CartViewModel.LoadCart: the `CartOperation.Loading` branch of the repository's answer cannot occur, because `getCartWithProducts` never returns it (`GetCartWithProducts`).
- OrderRepo.OrderRepository.SaveOrder and UpdateOrder model backend failures by two flags only: `reachable` makes every call fail, and `updatable` makes `updateDocument` fail. A failure partway through a call is not modelled.
- UserData.FromMap: the source's `as? List<String>` (User.kt:41) is an unchecked cast, so a `SavedAddresses` list holding a non-string element is kept as it is. `getAddresses()` then throws `ClassCastException`, and `loadUserData` ends in an error after it has already set the user and the names. The model keeps only the string elements, so that load succeeds. The backend attribute is a string array, so such an element is not expected to occur.
- Logging (`Log.d`, `Log.e`) is omitted, and so are the thread context switches (`withContext`).

## Findings

| source | as written | input that shows it | evidently intended | confidence | as-written member | corrected member |
|---|---|---|---|---|---|---|
| app/src/main/java/com/example/thriftr/viewModel/HomeViewModel.kt:288-307 | `loadInitialData` sets `_isLoading` to true and then calls `loadCategoryData(0)`. That call returns at once because of its own guard `if (_isLoading.value) return` (lines 179-181). The flag is released only afterwards, by `loadInitialData`'s own `finally`, and `initialLoadDone` is still set. | A fresh view model on which only `fetchDataIfNeeded()` is called: only the best deals are requested, tab 0 is never requested, and the view model's state stays Loading with no products for tab 0. On the screen the grid's scroll trigger (HomeScreen.kt) can still call `loadMoreProducts()`, which ignores the flag and fetches tab 0's first page, so the tab may appear later by that route. | The first visit loads and shows the home tab. For example, the flag is released before the call, or `loadCategoryData` is not guarded against the caller's own flag. | not executed | `HomeVm.HomeViewModel.LoadInitialData`, `HomeVm.FirstVisitStaysLoading` | `HomeVm.HomeViewModel.LoadInitialDataReleasingFlag`, `HomeVm.FirstVisitShowsHome` |

Other behaviour of the source that the model keeps as written:

- After a sort change during search, `setSortOption` and `toggleFilterOption` sort and filter the already filtered results again (`HomeViewModel.kt:150-155`). `ResortIsIdentity` shows that this is harmless.
- A failed page fetch reads as an empty page, which ends that tab's pagination (`PageOf`).
- Loading more de-duplicates only against ids already on the tab, so a page that repeats an id adds both copies (`MergeKeepsPageDuplicates`).
- The image URL names the project's bucket constant, not the `bucketId` passed to the upload (`ImageUrl`).
- A colour whose name contains `:` reads back wrongly on the product page (`ColonInNameIsMisread`).
- A stale wishlist deletion job removes the map entry of a newer job for the same product, because the entry is removed by product id (`DeletionTimerFires`).
- A cart line key built from parts that contain `-` can collide with another line's key (`ItemKeyCollides`).
