# DialMe Eat: the voice-session engine and the dashboard updaters in Dafny

This project models the core of DialMe Eat, a food-delivery web app. Customers
order by voice, restaurants manage their menus by voice, and riders and the
admin work the orders. Everything is written as pure functions over immutable
values. Each module follows one source file:

- `Wrappers`: `Option`.
- `Collections`: filter, sum, find, map-where and keyed maps. These are the
  array operations (`filter`, `reduce`, `find`, `map`, `forEach` into a
  record) that the dashboards are built from.
- `Base64`: `btoa` and `atob` at the byte level. `btoa` is the base64 of
  section 4 of RFC 4648 with padding. `atob` is the WHATWG forgiving decoder.
  The session's `encode`/`decode` are built on these.
- `Pcm`: the little-endian 16-bit PCM layout:
  - `decodeAudioData`, with its failure cases;
  - the microphone encoder of `onopen`, which truncates and wraps to 16 bits.
- `AudioSession`: the hook `useAudioSession` as a state machine. The state
  holds:
  - the active flag and the session handle;
  - the scheduled playback sources, each a buffer-source node with its own identity, and the number of nodes created so far;
  - `nextStart`, in 24 kHz ticks;
  - the per-turn accumulators and the published transcript.

  Each callback and action is one event. The output clock reading is an input
  of each message.
- `Domain`: the records and enums of `types.ts`, JavaScript truthiness of
  optional strings, and replace-by-id, filter-by-id and newest-first.
- `Sorting`: `Array.prototype.sort` with a key comparator, as a stable
  insertion sort.
- `Lifecycle`: the order statuses and which dashboard moves each one on.
- `CustomerView`, `RestaurantView`, `RiderView`, `AdminView`: the pure
  state updaters and derived lists of the four dashboards.
- `App`: rehydration, log-in, registration, log-out and dashboard choice.

Some things become parameters:

- **Clock and time:** the output clock, `Date.now()` and `Math.random()` ids.
- **Platform and foreign calls:**
  - the result of `JSON.parse`;
  - the device location;
  - the generated image;
  - `toLocaleDateString`;
  - the haversine distance.
- **Timers and handlers:** the 3000 ms timer is an explicit event. A tool
  handler's exception is an explicit `Threw` result.
- **React state:** a callback closed over the state of an earlier render
  reads that snapshot and updates the live state. Those functions take both.

## Model

| member | source | states |
|---|---|---|
| Base64.Encode | hooks/useAudioSession.ts:14-20 | the text is padded base64: length 4·⌈n/3⌉ and alphabet characters before the padding |
| Base64.Decode | hooks/useAudioSession.ts:5-12 | decoding succeeds exactly when `atob` accepts the text, and the bytes are the codes of `atob`'s binary string |
| Base64.DecodeEncode | hooks/useAudioSession.ts:5-20 | `decode(encode(b)) == b` for every byte sequence, the empty one included |
| Base64.Btoa | hooks/useAudioSession.ts:19 | `btoa` succeeds exactly on binary strings (every code point below 256), and its output length is a multiple of 4 |
| Base64.Atob | hooks/useAudioSession.ts:6 | whatever `atob` returns is a binary string |
| Base64.AtobEncodeBytes | hooks/useAudioSession.ts:5-20 | the forgiving decoder inverts the padded encoder |
| Base64.SextetsRoundTrip | hooks/useAudioSession.ts:5-20 | regrouping bytes into 6-bit digits and back loses nothing |
| Pcm.Int16LE | hooks/useAudioSession.ts:28 | a byte pair read as a signed little-endian 16-bit value: congruent to lo + 256·hi, negative iff the high byte is ≥ 128 |
| Pcm.Int16RoundTrip | hooks/useAudioSession.ts:28 | writing samples as bytes and reading them back gives the samples; an odd byte count is rejected |
| Pcm.DecodeAudioData | hooks/useAudioSession.ts:22-39 | a buffer exists iff the byte count is even, there is at least one channel, and `createBuffer` accepts the channel count (at most 32), the rate and the ⌊samples/channels⌋ frames (at least one); channel c, frame i is the little-endian Int16 of bytes 2·(i·n+c) and 2·(i·n+c)+1 divided by 32768, which lies in [-1, 1) |
| Pcm.ChannelsFromBytes | hooks/useAudioSession.ts:31-36 | de-interleaving reads channel c, frame i from its own byte pair at 2·(i·n+c), for every channel count n ≥ 1 |
| Pcm.MonoDecode | hooks/useAudioSession.ts:28-37 | an n-byte mono chunk decodes iff n is even and non-zero, into n/2 frames; frame i is the Int16 of bytes 2i, 2i+1 over 32768 and lies in [-1, 1) |
| Pcm.ToInt16 | hooks/useAudioSession.ts:105 | storing into an `Int16Array` truncates toward zero and wraps modulo 2^16; in range it is plain truncation |
| Pcm.CaptureSamples | hooks/useAudioSession.ts:101-106 | one 16-bit sample per input sample, each the input scaled by 32768 and stored with Int16 conversion |
| Pcm.CaptureBlob | hooks/useAudioSession.ts:105-109 | the capture blob has the `audio/pcm;rate=16000` type and base64 length 4·⌈2n/3⌉ for n samples |
| Pcm.CaptureRoundTrip | hooks/useAudioSession.ts:96-109 | decoding a capture blob gives back exactly the encoded 16-bit samples, which in range are the truncated scaled inputs |
| Pcm.FullScaleWraps | hooks/useAudioSession.ts:105 | a full-scale input of 1.0 wraps to -32768 |
| AudioSession.UserLine | hooks/useAudioSession.ts:148 | a user line carries the `[User]` tag and never the `[DialMe]` one |
| AudioSession.ModelLine | hooks/useAudioSession.ts:153 | a model line carries the `[DialMe]` tag and never the `[User]` one |
| AudioSession.TagsExclusive | hooks/useAudioSession.ts:148-153 | no line starts with both tags |
| AudioSession.UserDelta | hooks/useAudioSession.ts:145-149 | user text is appended to the accumulator; the non-user lines stay, in their order; the user lines are replaced by exactly one, the updated line, placed last; playback untouched |
| AudioSession.ModelDelta | hooks/useAudioSession.ts:150-154 | the same for model text and the `[DialMe]` tag: non-model lines in order, then exactly one model line |
| AudioSession.TurnComplete | hooks/useAudioSession.ts:156-167 | both accumulators are reset; with both empty the list is unchanged; otherwise the non-speaker lines stay in order, the speaker lines are exactly the final lines (user first, each only when non-empty) and they come last |
| AudioSession.TurnCompleteExact | hooks/useAudioSession.ts:159-165 | when the list holds only speaker lines, a turn end leaves exactly the final lines |
| AudioSession.ChunkFrames | hooks/useAudioSession.ts:131-141 | a chunk yields frames iff its base64 decodes to an even, non-zero byte count, and then it yields half that count |
| AudioSession.ScheduleChunk | hooks/useAudioSession.ts:128-142 | a decoded chunk gets a new buffer-source node that starts at max(nextStart, now) and is added to the sources, and nextStart moves to its end; a failed decode creates no node and only raises nextStart to max(nextStart, now) |
| AudioSession.Interrupt | hooks/useAudioSession.ts:119-125 | sources emptied, nextStart back to 0, model accumulator cleared, user accumulator and list kept |
| AudioSession.AudioPart | hooks/useAudioSession.ts:128-142 | the audio of a message touches only the schedule: turn, list, active flag and handle are kept |
| AudioSession.TextPart | hooks/useAudioSession.ts:144-167 | the transcriptions and the turn end touch only the turn and the list: sources, nextStart, active flag and handle are kept |
| AudioSession.TextPartFrame | hooks/useAudioSession.ts:144-167 | the text part reads only the turn and the list, so the audio scheduled before it cannot change its outcome |
| AudioSession.OnMessage | hooks/useAudioSession.ts:117-168 | an interrupted message is only an interruption; otherwise the schedule is the one the audio part alone gives and the turn and list the ones the text part alone gives; no message changes the active flag or the handle |
| AudioSession.Dispatch | hooks/useAudioSession.ts:170-177 | the calls are run in order on the handler state threaded through them: response i carries call i's id and name and the result the handler returned for it in the state after calls 0..i-1; it threw iff fewer responses than calls, and then the handler threw on the first unanswered call and the state is the one that call left; otherwise the state after all calls |
| AudioSession.DispatchTotal | hooks/useAudioSession.ts:170-177 | a handler that never throws answers every call |
| AudioSession.DispatchFirst | hooks/useAudioSession.ts:172-175 | the first response wraps the handler's result for the first call |
| AudioSession.HandleMessage | hooks/useAudioSession.ts:117-178 | no handler, no tool call or an interruption means no responses; otherwise the handler state, the responses and whether it threw are exactly those of the call loop over the message's calls, so at most one response per call and fewer exactly when the handler threw |
| AudioSession.Stop | hooks/useAudioSession.ts:52-64 | inactive, handle dropped, sources empty, accumulators reset; nextStart and the published list are kept |
| AudioSession.StartAsWritten | hooks/useAudioSession.ts:66-78 | without an API key or the microphone nothing changes; otherwise only the handle appears |
| AudioSession.Start | hooks/useAudioSession.ts:66-95 | the corrected start, not used by the engine: the new session begins with no sources and nextStart unset |
| AudioSession.StartCorrectsSchedule | hooks/useAudioSession.ts:66-95 | the corrected start differs from the start as written only in the reset schedule |
| AudioSession.Step | hooks/useAudioSession.ts:52-188 | a start, run as written, only adds the handle when key and microphone are granted and keeps the schedule; stop drops the handle, sources and accumulators but keeps nextStart and the list; a message is handled exactly as `onmessage` handles it, keeping the flags, and an interrupted one empties the schedule; open sets the active flag, error/close clears it, a finished node leaves the set, clear empties the list |
| AudioSession.StopIdempotent | hooks/useAudioSession.ts:52-64 | stopping twice is stopping once |
| AudioSession.InterruptedMessageIgnoresRest | hooks/useAudioSession.ts:119-125 | an interrupted message's audio, text, turn end and tool calls are all ignored |
| AudioSession.ConsecutiveChunks | hooks/useAudioSession.ts:131-139 | two chunks in a row get two new nodes and play in arrival order without overlap, back to back when the second arrives in time |
| AudioSession.ScheduleChunkKeepsSchedule | hooks/useAudioSession.ts:131-139 | scheduling keeps every source an already created node, ending by nextStart, and no two sources overlapping |
| AudioSession.StaleEndKeepsNewNode | hooks/useAudioSession.ts:119-140 | after an interruption, the late `onended` of a node stopped earlier removes nothing, even when the new chunk's node has the same start and length |
| AudioSession.StepKeepsInvariants | hooks/useAudioSession.ts:52-188 | every event keeps the schedule invariant and the transcript shape |
| AudioSession.OnMessageKeepsInvariants | hooks/useAudioSession.ts:117-168 | a message keeps the schedule invariant and the transcript shape |
| AudioSession.UserDeltaKeeps | hooks/useAudioSession.ts:145-149 | a user delta keeps the invariants |
| AudioSession.ModelDeltaKeeps | hooks/useAudioSession.ts:150-154 | a model delta keeps the invariants |
| AudioSession.TurnCompleteKeeps | hooks/useAudioSession.ts:156-167 | turn completion keeps the invariants |
| AudioSession.UserDeltaKeepsShape | hooks/useAudioSession.ts:145-149 | after a user delta the list still has at most one line per speaker |
| AudioSession.ModelDeltaKeepsShape | hooks/useAudioSession.ts:150-154 | after a model delta the list still has at most one line per speaker |
| AudioSession.TurnCompleteKeepsShape | hooks/useAudioSession.ts:156-167 | after turn completion the list still has at most one line per speaker |
| AudioSession.TranscriptOkAtMostOnePerSpeaker | hooks/useAudioSession.ts:145-167 | the published list never holds two lines of one speaker |
| AudioSession.DeltasThenTurnComplete | hooks/useAudioSession.ts:145-167 | deltas "a" then "b" then turn end publish the single line `[User]: ab` |
| AudioSession.RestartDelaysFirstChunk | hooks/useAudioSession.ts:131-138 | as written, the engine keeps the schedule across stop and start, so after 10 s of audio a stop, a start and a one-frame chunk at tick 0 schedule that chunk 10 s in the future |
| AudioSession.FirstChunkAfterStartPlaysNow | hooks/useAudioSession.ts:131-139 | with the reset, the first chunk after a start plays at the current tick |
| Domain.OrElse | App.tsx:58 | `o \|\| d` on an optional string: the value when truthy, the default otherwise |
| Domain.UpdateById | views/AdminDashboard.tsx:137-145 | entries with the id are replaced by f of themselves, all others kept, length kept |
| Domain.RemoveById | views/AdminDashboard.tsx:125-135 | no entry with the id stays, every entry with another id stays, nothing new appears |
| Domain.RemoveByIdCount | views/AdminDashboard.tsx:125-135 | the list shrinks by exactly the number of entries with that id; unchanged iff none had it |
| Domain.RemoveByIdKeepsOrder | views/AdminDashboard.tsx:125-135 | removal works piecewise on concatenation, so the survivors keep their order |
| Domain.SetStatus | views/RiderDashboard.tsx:29-31 | only the status of the orders with that id changes |
| Domain.NewestFirst | views/RestaurantDashboard.tsx:246 | the same orders, by createdAt descending |
| Domain.NewestFirstStable | views/RestaurantDashboard.tsx:246 | orders with equal timestamps keep their relative order |
| Sorting.Insert | views/AdminDashboard.tsx:78 | inserting adds exactly the element |
| Sorting.Sort | views/AdminDashboard.tsx:78 | sorting is a permutation |
| Sorting.SortSorted | views/AdminDashboard.tsx:78 | with a strict-order comparator the result is in order |
| Sorting.SortStable | views/AdminDashboard.tsx:78 | equal keys keep their relative order |
| Sorting.SortKeysDistinct | views/AdminDashboard.tsx:78 | sorting keeps keys distinct |
| Lifecycle.RestaurantNext | views/RestaurantDashboard.tsx:293-295 | the restaurant moves PLACED, CONFIRMED and PREPARING one step on, and nothing later |
| Lifecycle.RiderNext | views/RiderDashboard.tsx:128-148 | the rider moves READY and OUT_FOR_DELIVERY one step on, and nothing else |
| Lifecycle.ExactlyOneActor | types.ts:82-89 | no status is moved by both dashboards, and every status but DELIVERED is moved by one of them |
| Lifecycle.AdvanceReachesDelivered | types.ts:82-89 | from any status the buttons reach DELIVERED in exactly the remaining steps, and no further |
| CustomerView.DeliveryFee | views/CustomerDashboard.tsx:55 | at least 150, exactly 150 iff km ≤ 3; beyond 3 km it is 150 plus a whole positive number of Rs. 50 steps, lying between 150 + 50·(km−3) and 50 more |
| CustomerView.DeliveryFeeMonotone | views/CustomerDashboard.tsx:55 | the fee never falls as distance grows |
| CustomerView.ActiveRestaurants | views/CustomerDashboard.tsx:57 | exactly the approved restaurants with at least one item |
| CustomerView.SortedOrders | views/CustomerDashboard.tsx:24-28 | exactly the logged-in customer's orders, newest first |
| CustomerView.SortedOrdersStable | views/CustomerDashboard.tsx:24-28 | orders with equal timestamps keep their order |
| CustomerView.Lower | views/CustomerDashboard.tsx:148 | `toLowerCase` keeps the length and lowers each character |
| CustomerView.Contains | views/CustomerDashboard.tsx:148 | a prefix is contained, and a contained needle is no longer than the text |
| CustomerView.ContainsIff | views/CustomerDashboard.tsx:148 | `includes` holds iff the needle occurs at some index |
| CustomerView.FirstMatch | views/CustomerDashboard.tsx:148 | none iff no menu item matches the name; otherwise the earliest menu item that matches |
| CustomerView.MatchItems | views/CustomerDashboard.tsx:147-149 | never more matches than requested names |
| CustomerView.MatchItemsAnswer | views/CustomerDashboard.tsx:147-149 | every match is a menu item matching some requested name |
| CustomerView.MatchItemsAllFound | views/CustomerDashboard.tsx:147-149 | when every name matches, the result is the first match of each name, in request order |
| CustomerView.MatchItemsNoneFound | views/CustomerDashboard.tsx:147-149 | when no name matches, the result is empty |
| CustomerView.MatchItemsAppend | views/CustomerDashboard.tsx:147-149 | matching splits over concatenated name lists, so the result is the matches of the names in request order |
| CustomerView.MatchItemsOne | views/CustomerDashboard.tsx:147-149 | a single name yields its first matching item or nothing |
| CustomerView.CanProcess | views/CustomerDashboard.tsx:173-175 | an order is made iff a customer id is logged in, a customer and a restaurant with the ids exist, and the first of each has a location |
| CustomerView.ProcessOrder | views/CustomerDashboard.tsx:172-196 | with a customer and restaurant located, exactly one PLACED order is appended: its distance is the one between the customer's and the restaurant's locations, its fee is the fee for that distance and its total prices + fee; nothing else changes; otherwise nothing changes |
| CustomerView.PlaceOrderCall | views/CustomerDashboard.tsx:136-167 | busy while held; unknown restaurant or no match releases the guard with an error; missing names throw with the guard held; success holds the guard and reports the matched total; other names are unknown commands |
| CustomerView.TimerFired | views/CustomerDashboard.tsx:160 | the timer frees the guard and changes nothing else |
| CustomerView.ToggleVoice | views/CustomerDashboard.tsx:91-94 | a running session is stopped; otherwise the list is cleared, the guard freed and a session started as written |
| CustomerView.NoOrderUnlessPlaced | views/CustomerDashboard.tsx:138-157 | a call that is not a placed order creates no order; only a placed order or an exception leaves the guard held |
| CustomerView.PlacedWithoutOrder | views/CustomerDashboard.tsx:157-173 | with nobody logged in, a matched call reports success but creates no order |
| CustomerView.SecondCallIsBusy | views/CustomerDashboard.tsx:138-160 | after a placed order, the next call in the same message is answered busy |
| CustomerView.TimerUnblocks | views/CustomerDashboard.tsx:138-160 | after the timer a call is handled again instead of being busy |
| RestaurantView.ItemCategories | views/RestaurantDashboard.tsx:40 | the categories of the items, in order |
| RestaurantView.AvailableCategories | views/RestaurantDashboard.tsx:37-42 | no duplicates; the five defaults first; every own category and every item category present; nothing else |
| RestaurantView.FormItem | views/RestaurantDashboard.tsx:74-88 | the edited id when truthy else a fresh one; empty defaults; price 0 and category "General" when missing; a described item without an image gets the generated one, any other keeps its own |
| RestaurantView.ItemsAfterSave | views/RestaurantDashboard.tsx:94-96 | a new item is appended; an edit replaces the items with the edited id in place and keeps the count |
| RestaurantView.SaveItem | views/RestaurantDashboard.tsx:90-98 | only the own restaurant changes: edited items replaced in place, count kept, or the item appended |
| RestaurantView.LeadingSpaces | views/RestaurantDashboard.tsx:120 | the length of the run of leading white space |
| RestaurantView.TrimmedEnd | views/RestaurantDashboard.tsx:120 | where the trailing white space begins |
| RestaurantView.Trim | views/RestaurantDashboard.tsx:120-125 | empty iff all white space; otherwise the slice between leading and trailing white space, starting and ending with non-space |
| RestaurantView.TrimIdempotent | views/RestaurantDashboard.tsx:120-125 | trimming twice is trimming once |
| RestaurantView.AddCategory | views/RestaurantDashboard.tsx:119-129 | a blank name or no restaurant changes nothing; otherwise the trimmed name is appended to the own restaurant's categories only |
| RestaurantView.AddMenuItemCall | views/RestaurantDashboard.tsx:201-216 | always answers success; `addMenuItem` appends one item, with the id and image of that call, to the logged-in restaurant only and counts the call; other names change nothing |
| RestaurantView.ToolItem | views/RestaurantDashboard.tsx:204-209 | given fields are taken as they are; an absent id is the fresh one, an absent price 0, other absent fields empty; the image is the generated one |
| RestaurantView.MerchantAnswersEveryCall | views/RestaurantDashboard.tsx:201-216 | the merchant handler answers every call of a message |
| RestaurantView.TwoAdditions | views/RestaurantDashboard.tsx:202-212 | two `addMenuItem` calls in a row append two items in call order, each with its own id and its own generated image |
| RestaurantView.VoiceSetup | views/RestaurantDashboard.tsx:178-198 | a running session is stopped; without a restaurant nothing happens; otherwise the list is cleared and a session started as written |
| RestaurantView.RestaurantOrders | views/RestaurantDashboard.tsx:25 | exactly the own restaurant's orders, as a multiset, newest first as sorted at line 246 |
| RestaurantView.PressStatusButton | views/RestaurantDashboard.tsx:293-295 | the shown order moves one step when the restaurant may move it; other orders and fields are untouched |
| RestaurantView.NetPayout | views/RestaurantDashboard.tsx:247-249 | payout plus commission is the food subtotal; a missing percentage takes nothing |
| RestaurantView.NetPayoutBounds | views/RestaurantDashboard.tsx:247-249 | with a percentage in [0, 100] the payout lies between 0 and the subtotal |
| RestaurantView.CountItem | views/RestaurantDashboard.tsx:252-258 | the first row of the item's name gets one more; a new name opens a row with count 1 and its price |
| RestaurantView.ItemCounts | views/RestaurantDashboard.tsx:252-258 | never more rows than items |
| RestaurantView.ItemCountsDistinct | views/RestaurantDashboard.tsx:252-258 | one row per distinct name |
| RestaurantView.CountItemRow | views/RestaurantDashboard.tsx:252-258 | one more item keeps every name's row correct |
| RestaurantView.ItemCountsRow | views/RestaurantDashboard.tsx:252-258 | a name's row holds its occurrence count and the price of its first occurrence |
| RestaurantView.ItemCountsTotal | views/RestaurantDashboard.tsx:252-258 | the counts add up to the number of items |
| RestaurantView.RowsSpec | views/RestaurantDashboard.tsx:252-258 | with distinct names, a correct row is the only one of its name |
| RestaurantView.ItemCountsSpec | views/RestaurantDashboard.tsx:252-258 | a name has a row iff it occurs, and that row counts its items and carries its first price |
| RiderView.Me | views/RiderDashboard.tsx:13 | the rider with the logged-in id, or none when no rider has it |
| RiderView.Assigned | views/RiderDashboard.tsx:25 | exactly the rider's undelivered orders |
| RiderView.Completed | views/RiderDashboard.tsx:26 | exactly the rider's delivered orders |
| RiderView.Pool | views/RiderDashboard.tsx:27 | exactly the CONFIRMED/PREPARING/READY orders without a rider |
| RiderView.ListsDisjoint | views/RiderDashboard.tsx:25-27 | assigned and completed are disjoint and together are the rider's orders; neither meets the pool |
| RiderView.AcceptOrder | views/RiderDashboard.tsx:33-35 | only the rider of the orders with that id changes |
| RiderView.AcceptMovesOrder | views/RiderDashboard.tsx:25-35 | an accepted unclaimed order leaves the pool and joins the rider's assigned orders; others stay where they were |
| RiderView.UpdateStatus | views/RiderDashboard.tsx:29-31 | only the status of the matching orders changes |
| RiderView.PressRiderButton | views/RiderDashboard.tsx:128-148 | READY goes to OUT_FOR_DELIVERY, OUT_FOR_DELIVERY to DELIVERED, other statuses offer nothing |
| RiderView.Earnings | views/RiderDashboard.tsx:90 | the sum of fees over the rider's delivered orders |
| RiderView.CompletingAddsFee | views/RiderDashboard.tsx:29-31 | completing a delivery adds the fees of the rider's not-yet-delivered orders with that id to the earnings sum of line 90 |
| RiderView.EarningsNonNegative | views/RiderDashboard.tsx:90 | non-negative fees give non-negative earnings |
| RiderView.RiderScreen | views/RiderDashboard.tsx:23-72 | nothing without a rider, the pending notice iff not approved, otherwise the delivery view with the three lists and earnings |
| AdminView.Commission | views/AdminDashboard.tsx:36-47 | a restaurant's commission is pct/100 of the food subtotals of its delivered orders |
| AdminView.CommissionZero | views/AdminDashboard.tsx:36-47 | no percentage or no delivered orders means no commission |
| AdminView.SharesScale | views/AdminDashboard.tsx:39-42 | the per-order shares sum to the rate times the subtotals |
| AdminView.ShareIsScaled | views/AdminDashboard.tsx:41 | one order's share is the rate times its subtotal |
| AdminView.MerchantCommissions | views/AdminDashboard.tsx:36-47 | one entry per listed id and no other; an id's entry is the commission of its last restaurant |
| AdminView.RevenueSplits | views/AdminDashboard.tsx:437-441 | the revenue tile minus the fee tile is the food revenue |
| AdminView.Accumulate | views/AdminDashboard.tsx:61-76 | an order adds to the row of its date, or opens that row at the end |
| AdminView.Summaries | views/AdminDashboard.tsx:61-76 | never more rows than orders |
| AdminView.LexLessIrreflexive | views/AdminDashboard.tsx:78 | no date key precedes itself |
| AdminView.LexLessTransitive | views/AdminDashboard.tsx:78 | the date order is transitive |
| AdminView.LaterIsStrictOrder | views/AdminDashboard.tsx:78 | the descending comparator is a strict order |
| AdminView.DailyFinancials | views/AdminDashboard.tsx:50-79 | the rows of the delivered orders, by date descending |
| AdminView.SummariesDistinct | views/AdminDashboard.tsx:61-68 | one row per date |
| AdminView.SummariesBalance | views/AdminDashboard.tsx:64-75 | each row's food sales equal commission plus shop payable |
| AdminView.AccumulateDay | views/AdminDashboard.tsx:61-76 | one more order keeps the row of any date correct |
| AdminView.SummariesDay | views/AdminDashboard.tsx:53-76 | a date's row sums the food and commission of that date's orders |
| AdminView.DeliveredOnIff | views/AdminDashboard.tsx:53-56 | a delivered order has the date iff the search over delivered orders finds one |
| AdminView.HasDateIff | views/AdminDashboard.tsx:65 | a row of the date exists iff the lookup finds it |
| AdminView.DayRowOf | views/AdminDashboard.tsx:53-76 | the unsorted rows: a date has a row iff a delivered order has it, and the row sums them |
| AdminView.SortedDayRow | views/AdminDashboard.tsx:78 | sorting the rows keeps that |
| AdminView.DailyFinancialsSpec | views/AdminDashboard.tsx:50-79 | distinct dates; a row per delivered date and no other; each row sums its date's delivered orders |
| AdminView.CreateRestaurant | views/AdminDashboard.tsx:81-99 | one approved restaurant with no items, default location, avatar and 10 percent is appended; nothing else changes |
| AdminView.CreateRider | views/AdminDashboard.tsx:101-114 | one approved rider is appended; nothing else changes |
| AdminView.AdminPassUpdate | views/AdminDashboard.tsx:116-123 | an empty password changes nothing; otherwise only the admin password changes |
| AdminView.DeleteRestaurant | views/AdminDashboard.tsx:125-129 | when confirmed, exactly the restaurants with the id go; otherwise nothing changes |
| AdminView.DeleteRider | views/AdminDashboard.tsx:131-135 | when confirmed, exactly the riders with the id go; otherwise nothing changes |
| AdminView.SaveEditedRestaurant | views/AdminDashboard.tsx:137-145 | the edited copy replaces the restaurants with its id, length kept |
| AdminView.SaveEditedRider | views/AdminDashboard.tsx:147-155 | the edited copy replaces the riders with its id, length kept |
| AdminView.SaveUnchangedRestaurant | views/AdminDashboard.tsx:137-145 | saving an unedited restaurant with a unique id changes nothing |
| App.Rehydrate | App.tsx:47-65 | nobody logged in; the seed state when nothing is saved or parsing fails; else the saved data with the admin password defaulting to "1989" |
| App.Login | App.tsx:95-117 | admin succeeds iff user "admin" and the current password; others record the first matching account's id iff one matches; failure changes nothing |
| App.Register | App.tsx:119-149 | a taken user name is refused without change; otherwise the new customer is appended and logged in |
| App.Logout | App.tsx:151-160 | every log-in cleared, the data, role and password kept |
| App.SelectRole | App.tsx:263-269 | only the role changes |
| App.RenderDashboard | App.tsx:246-257 | the log-in form iff the selected role is not logged in; else that role's dashboard |
| App.LogoutShowsAuthForm | App.tsx:151-160 | after log-out every role shows the log-in form |
| App.LoginOpensDashboard | App.tsx:95-117 | a successful log-in opens the dashboard; a failed one leaves the view |
| App.RehydrateIsLogout | App.tsx:47-65 | a parsed saved state comes back logged out |
| App.NewAdminPasswordLogsIn | App.tsx:97-103 | after a password change the new password logs in and the old one fails |
| App.RegisterTwiceFails | App.tsx:119-149 | the same user name cannot be registered twice |

## Left out

- Web Audio and transport: `AudioContext`, the script processor, `getUserMedia` and `ai.live.connect`. A buffer-source node is its identity (a creation number), start tick and length; its audio is not modelled. The clock, the microphone grant and the API key are inputs.
- Overlapping `onmessage` invocations: each message is one atomic step. The awaited handler calls inside one message are modelled in order.
- Pcm.ToInt16: the float scaling by 32768 is exact real arithmetic. Truncation and 16-bit wrap-around are modelled, IEEE rounding is not.
- `toFixed` formatting of money, and every JSX, CSS, `alert` and `confirm` detail. A confirmation is a boolean input.
- The haversine `calculateDistance` (views/CustomerDashboard.tsx:46-53): the distance is an input of ProcessOrder.
- Image generation, geolocation, `localStorage`, `JSON.parse` and `toLocaleDateString`: their results are inputs.
- `Math.random`/`Date.now` ids and timestamps are inputs. In the merchant voice handler they and the generated images are indexed by the call's position among the `addMenuItem` calls, since each call awaits its own image before reading the clock. The 3000 ms `setTimeout` is the TimerFired event.
- RestaurantView.CountItem: JavaScript orders an object's integer-like keys before the others, so `Object.entries` order is not modelled. Per-name contents and the total are stated.
- RestaurantView.AddMenuItemCall: an absent name, price, description or category in the tool arguments becomes "" or 0.0 rather than `undefined` (the same holds for RestaurantView.ToolItem). Extra argument fields beyond `id`, name, price, description and category are not modelled.
- AdminView.DailyFinancials: `localeCompare` is modelled as code-point order. The two agree on the `YYYY-MM-DD` keys it sorts.
- RiderView.ListsDisjoint: requires a non-empty rider id. Rider ids are never empty: the seed rider is "rider1" and new riders get 'rider-' plus a random suffix (App.tsx:39, views/AdminDashboard.tsx:104), so the excluded case does not arise.
- The profile and settings handlers (`handleSaveProfile`, `handleRegenerateItemImage`, the rider's profile regeneration) and `itemsByCategory` are not part of this model. They are form plumbing over the same replace-by-id update.
- Money is exact real arithmetic, not IEEE doubles. AdminView.SummariesBalance and the RestaurantView.NetPayout identity (payout plus commission is the subtotal) hold exactly here and only up to rounding in the browser.
- AudioSession.UserDelta, AudioSession.ModelDelta: a transcription object without `text` appends the string "undefined" to the accumulator (hooks/useAudioSession.ts:146-147, 151-152). The model takes the text as given.
- AudioSession.OnMessage: a `modelTurn` without `parts` throws at hooks/useAudioSession.ts:128, so the transcripts, turn end and tool calls of that message are skipped. The model treats a missing chunk as no audio and goes on.
- RestaurantView.ItemCounts: an item named like an `Object.prototype` member ("constructor", "toString", "__proto__") finds that member in the `{}` accumulator at views/RestaurantDashboard.tsx:253-256 and miscounts. The model counts every name from zero.
- CustomerView.Lower: `toLowerCase` is modelled for ASCII letters only. Other characters, including non-ASCII capitals, are left unchanged, so matching of non-ASCII names is weaker than the browser's.
- Browser `atob` and `btoa` are modelled, not assumed: `btoa` accepts only code points below 256 and `atob` is the forgiving decoder.

## Findings

| source | as written | input that shows it | evidently intended | confidence | as-written member | corrected member |
|---|---|---|---|---|---|---|
| hooks/useAudioSession.ts:47,52-64,131 | `stopSession` keeps `nextStartTimeRef`, and a new session opens a new output `AudioContext` whose clock starts at 0 | stop after 10 s of reply audio (nextStart 240000 ticks), start again, receive a one-frame chunk at tick 0: it is scheduled at tick 240000 | a new session starts its playback schedule afresh, so its first chunk plays at once | not executed | AudioSession.RestartDelaysFirstChunk | AudioSession.FirstChunkAfterStartPlaysNow |

The engine follows the code as written: AudioSession.Step, CustomerView.ToggleVoice and RestaurantView.VoiceSetup start a session with AudioSession.StartAsWritten, which keeps the old schedule. The corrected AudioSession.Start resets the schedule. AudioSession.StartCorrectsSchedule shows that this reset is its only difference from the start as written, and AudioSession.FirstChunkAfterStartPlaysNow proves the intended behaviour about it.
