# Friends for Cheaper: cart and chat-turn state

This project models the state logic of the single page of the "Friends for
Cheaper" site (`app/page.tsx`, component `Home`). The site is a catalog of
services priced in beers, with a client-side shopping cart and a chat widget
that streams replies from a language-model relay. Four pieces of logic live in
that component, and each has a module here:

- `Text`: the two JavaScript string operations the chat logic relies on.
  `trim()` is the blank-input guard; it strips the ECMAScript WhiteSpace and
  LineTerminator code points. `includes()` detects the discount marker.
- `Shop`: the `Service` record, the six-entry catalog, and the discounted price
  `max(1, price - discount)`. It also has the cart total (a left fold over the
  cart) and the two copying cart updates. `AddToCart` appends, and duplicates
  are allowed. `RemoveFromCart` deletes the first entry with the given id.
- `Chat`: transcript messages, the relay's reply as a sequence of decoded
  chunks, and the running buffer (their concatenation). It also has the
  discount trigger `Promote`, which switches the discount from 0 to 2 once the
  accumulated buffer contains `"DISCOUNT:"`.
- `Page`: class `Home` holds the component's state: `cart`, `discount`,
  `messages`, `input` and `isLoading`. Its methods are the event handlers.
  `HandleSubmit` is the chat turn: the blank guard, the user message, and the
  empty assistant message when the relay answered. Its read loop
  (`StreamReply`) adds each chunk to the buffer, re-checks the discount, and
  overwrites the last transcript entry with the whole buffer.

The relay's answer is a parameter of `HandleSubmit`. It is either `Failed`
(`fetch` threw, or the response was not ok) or `Streamed(chunks)`: the decoded
chunks that arrived before the stream ended. A reader that fails mid-stream
leaves the same state as a stream that ends at that point, so both are
`Streamed`. The DOM lookup of the cart button, which decides whether
"add to cart" does anything, is the boolean parameter `cartButtonShown`.

Two behaviours of the code are easy to miss, and the model keeps both:
- The transcript does not strictly alternate between user and assistant. When
  the request fails, the user message stays without a reply, and the next turn
  appends another user message. The invariant kept (`Chat.WellFormed`) is that
  every assistant message directly follows a user message.
- The empty assistant message is appended only after the relay answered with
  an ok status. It is not added before the request.

## Model

| member | source | states |
|---|---|---|
| `Text.IsWhitespace` | app/page.tsx:192 | the characters `trim()` strips: the ECMAScript WhiteSpace and LineTerminator code points, listed one by one; the contract pins only that the ASCII space, tab, LF and CR are stripped and that ASCII letters and digits never are |
| `Text.TrimStart` | app/page.tsx:192 | the result is empty or starts with a non-whitespace character, and every character dropped from the front is whitespace |
| `Text.TrimEnd` | app/page.tsx:192 | the result is empty or ends with a non-whitespace character, and every character dropped from the back is whitespace |
| `Text.TrimStartIsSuffix` | app/page.tsx:192 | what the leading trim keeps is a suffix of the input |
| `Text.TrimEndIsPrefix` | app/page.tsx:192 | what the trailing trim keeps is a prefix of the input |
| `Text.Trim` | app/page.tsx:192 | `trim()` is empty exactly when the input is all whitespace, and otherwise starts and ends with a non-whitespace character; so the guard `!input.trim()` rejects exactly the empty and whitespace-only inputs |
| `Text.IsBlank` | app/page.tsx:192 | the guard `!input.trim()` holds exactly when every character of the input is whitespace (the empty input included) |
| `Text.TrimIsSlice` | app/page.tsx:192 | what `trim()` keeps is one contiguous slice of the input |
| `Text.Includes` | app/page.tsx:222 | `fullContent.includes('DISCOUNT:')`; its own contract says only that a match needs the marker to fit and that the empty string always matches; the full meaning is in `Text.IncludesIff` |
| `Text.IncludesIff` | app/page.tsx:222 | the left-to-right `includes` scan is true exactly when the marker occurs at some index of the buffer |
| `Text.IncludesExtend` | app/page.tsx:215-222 | appending more text to the buffer never loses an occurrence of the marker |
| `Shop.Services` | app/page.tsx:46-89 | the catalog has six services with ids 1..6 and every price in 1..8 beers |
| `Shop.DiscountedPrice` | app/page.tsx:170-172 | the price is at least 1 beer and at least `price - discount`, it equals one of those two, it equals the list price when there is no discount, and a non-negative discount never raises it above `max(price, 1)` |
| `Shop.TotalBeers` | app/page.tsx:174 | the total of discounted prices is 0 for an empty cart and at least the number of entries |
| `Shop.TotalConcat` | app/page.tsx:174 | the total of two carts joined is the sum of their totals |
| `Shop.TotalUndiscounted` | app/page.tsx:170-174 | with discount 0 and every price at least 1, the total is the sum of list prices |
| `Shop.DiscountNeverRaisesTotal` | app/page.tsx:170-174 | a non-negative discount never makes the cart total higher than without discount |
| `Shop.AddToCart` | app/page.tsx:157 | the service is appended: length grows by one, earlier entries are unchanged, and the multiset gains one more copy even if the service was already there |
| `Shop.TotalAfterAdd` | app/page.tsx:157-174 | adding a service raises the total by exactly its discounted price |
| `Shop.FindIndex` | app/page.tsx:163 | `findIndex` returns -1 exactly when no entry has the id, and otherwise the first index whose entry has it |
| `Shop.RemoveFromCart` | app/page.tsx:162-168 | an id not in the cart leaves it unchanged; otherwise exactly the first matching entry is removed, the length drops by one, the entries before and after keep their order, and the multiset loses exactly that entry |
| `Shop.TotalAfterRemove` | app/page.tsx:162-174 | removing a present id lowers the total by the removed entry's discounted price |
| `Shop.AddThenRemove` | app/page.tsx:157-168 | adding a service whose id is not in the cart and then removing that id restores the cart |
| `Chat.WellFormedTurn` | app/page.tsx:194-208 | appending a user message, optionally followed by one assistant message, keeps every assistant message directly after a user message |
| `Chat.Concat` | app/page.tsx:212-220 | the accumulator `fullContent += chunk` after the given chunks; its own contract fixes the empty and one-chunk cases, and `Chat.ConcatAppend` and `Chat.ConcatChunkAt` state the rest |
| `Chat.ConcatAppend` | app/page.tsx:215-216 | the buffer after two runs of chunks is the buffer of the first followed by the buffer of the second |
| `Chat.ConcatChunkAt` | app/page.tsx:212-231 | chunk k sits in the final reply right after the chunks before it: no loss and no reordering, and each intermediate buffer is a prefix of the final one |
| `Chat.Promote` | app/page.tsx:222-224 | the discount either stays or becomes 2; it changes only from 0, and only when the buffer contains `"DISCOUNT:"`; once it is 2 it stays 2 |
| `Chat.PromoteStep` | app/page.tsx:215-224 | re-checking after one more chunk gives the same discount as checking the longer buffer from the turn's start |
| `Chat.PromoteMonotone` | app/page.tsx:215-224 | once the accumulated buffer has granted the discount, more text never withdraws it |
| `Chat.MarkerAcrossChunks` | app/page.tsx:215-224 | for any two chunks whose joined text contains the marker, the accumulated check grants the discount, wherever the split between them falls |
| `Chat.MarkerSplitExample` | app/page.tsx:215-224 | for the chunks "DISC" and "OUNT:", neither chunk holds the marker, yet the accumulated reply triggers the discount |
| `Page.Home.constructor` | app/page.tsx:30-44 | the page starts with an empty cart, discount 0, an empty transcript and input, and no request in flight |
| `Page.Home.Total` | app/page.tsx:174 | the displayed total under the current discount is at least the number of cart entries |
| `Page.Home.SetInput` | app/page.tsx:922 | editing the input box replaces the input and keeps the state valid |
| `Page.Home.AddToCart` | app/page.tsx:142-160 | with the cart button present the service is appended to the cart and the total rises by its discounted price; otherwise nothing changes; nothing else changes |
| `Page.Home.RemoveFromCart` | app/page.tsx:162-168 | the cart becomes the copy with the first matching entry removed, and the total drops by that entry's discounted price; nothing else changes |
| `Page.Home.HandleSubmit` | app/page.tsx:190-239 | blank input changes nothing and posts nothing; otherwise the input is posted and cleared, the transcript gains the user message, and, when the relay answered, one assistant message equal to all chunks concatenated; the discount becomes `Promote(old discount, reply)`, so it stays in {0, 2}; loading ends false; the cart is untouched |
| `Page.Home.StreamReply` | app/page.tsx:212-231 | after the read loop the last transcript entry holds the chunks concatenated in arrival order, all earlier entries and the transcript length are unchanged, and the discount is `Promote` of the entry discount and the whole buffer |

## Left out

- Flying-item animation (`flyingItems`, the 1000 ms `setTimeout`, `Date.now()` ids): cosmetic and timing-dependent. "Add to cart" is modelled as its deferred effect only, applied at once.
- DOM measurement, the resize listener and the auto-scroll effect: presentation only. The presence of the cart button is the `cartButtonShown` parameter.
- `fetch`, the stream reader and `TextDecoder`: I/O. The model takes the decoded chunks as input. Multi-byte characters split across network chunks are not modelled, because `decode` is called without streaming mode.
- Logging the error to the console on failure: the model keeps the transcript as far as it was applied and ends with loading false.
- React batching and stale closures: updates are modelled as sequential state transitions. In the code the discount tested in the loop is the value captured when the turn began, while the model tests the current value. Both give the same final discount, because setting 2 again is idempotent.
- Page.Home.StreamReply: the code mutates the last message object in place, and that object is shared with the previous state array. The model replaces the last entry of a value sequence, so this aliasing is not captured.
- The chat relay (`app/api/chat/route.ts`) and the contact relay (`app/api/contact/route.ts`): foreign SDK calls and HTTP I/O. Whether the reply contains the marker depends on the relay's prompt, not on code.
- The open/closed flags of the cart and chat panels, the disabled input while loading, `renderPrice`/`renderCartItemPrice`, the reviews list and all markup: rendering only.
- JavaScript `number` ids, prices and the discount are modelled as unbounded `int`. This is exact here: the catalog ids and prices are small integers, and the discount is only ever 0 or 2.
- Interleaving of cart events with a chat turn: a turn is one atomic `HandleSubmit` call. The page disables only the chat input and send button while loading (app/page.tsx:925, app/page.tsx:929), so in the code a cart change can happen between two chunks. The model does not interleave them, which is why the cart methods require `Valid()` with `!isLoading`. A turn changes only the transcript, the input and the discount, and the cart handlers change only the cart, so every interleaving ends in the same state.
