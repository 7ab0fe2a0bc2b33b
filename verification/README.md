# Lunch menu and coffee roulette: a Dafny model of the `App` handlers

The application lets an office team spin a wheel to pick a lunch restaurant,
spin a second wheel to pick who pays for coffee, and keep a restaurant
directory with reviews, ratings and votes. All of its logic lives in the
state-transition handlers of the `App` component in `src/App.jsx`. This
project models those handlers as pure functions on an immutable state record
and proves what they promise.

- `wrappers.dfy`: `Option`, for the source's `null` and `undefined`.
- `seqs.dfy`: duplicate-freedom and `Array.prototype.filter`, with order and permutation lemmas.
- `text.dfy`: `String.prototype.trim` over the ECMAScript white-space and line-terminator set.
- `rating.dfy`: review averages in integer tenths. `Math.round(mean * 10)` is
  `(20 * sum + n) / (2 * n)` with floor division. The result is characterised as
  the unique round-half-up value.
- `restaurants.dfy`: the restaurant and review records, the category list, and
  the list operations behind `addReview`, `voteForRestaurant` and
  `deleteRestaurant`.
- `members.dfy`: the coffee member list (`addMember`, `removeMember`) and its
  invariant: trimmed, non-empty, distinct names.
- `roulette.dfy`: `Math.floor(rand * n)`, JavaScript indexing and `slice(0, k)`,
  and the winner count `1 + floor(rand * min(3, n - 1))`.
- `app.dfy`: the component state (every `useState` hook except the tab) and one
  function per handler. A spin click returns the new state plus a `Timer`
  holding the list its `setTimeout` closure captured. The timer's completion is
  a separate function that takes `Math.random()` and, for coffee, the shuffled
  list as parameters.
- `session.dfy`: the component over time. A world is the state plus the queue
  of pending timers. Both delays are 2000 ms, so timers fire in the order they
  were scheduled. An event type covers every handler, the form edits, the two
  buttons that open and close the add forms, and a timer firing. The model proves an invariant that holds in every reachable world.

Ratings are integer tenths (`4.5` is `45`). Randomness, `Date.now()`, and the
answers of `window.confirm` are parameters. The component keeps all data in
local React state; it has no remote store, connectivity check or syncing flag,
and none is modelled.

## Model

| member | source | states |
|---|---|---|
| Seqs.Filter | src/App.jsx:89 | The filtered list holds exactly the accepted elements of the input and is no longer. A duplicate-free input gives a duplicate-free result. |
| Seqs.FilterConcat | src/App.jsx:130 | Filtering distributes over concatenation, so survivors keep their relative order. |
| Seqs.NoDupIffSingleCounts | src/App.jsx:56 | A sequence is duplicate-free iff every value occurs at most once in its multiset. |
| Seqs.PermutationKeepsNoDup | src/App.jsx:56 | A permutation of a duplicate-free list, such as the sorted copy of the members, is duplicate-free. |
| Text.TrimStart | src/App.jsx:81 | The result is a suffix of the input, preceded only by white space, and is empty or starts with a non-space. |
| Text.TrimEnd | src/App.jsx:81 | The result is a prefix of the input, followed only by white space, and is empty or ends with a non-space. |
| Text.Trim | src/App.jsx:81 | The trimmed name is the infix left after dropping white space at both ends, and it has no white space at either end. |
| Text.TrimIdempotent | src/App.jsx:81-82 | Trimming a trimmed name changes nothing, so a stored name equals its own trim. |
| Text.TrimEmptyIff | src/App.jsx:81 | A name trims to empty exactly when every character is white space. |
| Text.IsSpace | src/App.jsx:81 | The characters `trim` removes. Within ASCII they are exactly the space and tab, line feed, vertical tab, form feed and carriage return. |
| Rating.MeanTenths | src/App.jsx:105-111 | The stored rating in tenths t satisfies t - 1/2 <= 10 * mean < t + 1/2, which is `Math.round` with halves going up. |
| Rating.MeanTenthsUnique | src/App.jsx:111 | Any number of tenths that meets that bracket is the rating, so the rounding is fully determined. |
| Rating.MeanTenthsBounds | src/App.jsx:105-111 | If every score is in [lo, hi], the rounded mean is in [10 * lo, 10 * hi] tenths. |
| Rating.SumAppend | src/App.jsx:106 | Appending one score adds that score to the reduced total. |
| Rating.Sum | src/App.jsx:106 | The left-to-right `reduce` total equals the total taken from the front, first score plus the rest. |
| Restaurants.CategoriesDistinct | src/App.jsx:35 | The category list has seven distinct, non-empty labels. |
| Restaurants.Scores | src/App.jsx:106 | The values the average reduces over: exactly one score per review, each the review's star rating, in review order. |
| Restaurants.ScoresAppend | src/App.jsx:97-106 | A review appended to the list adds its score at the end of the reduced values and leaves the earlier scores unchanged. |
| Restaurants.NewRestaurant | src/App.jsx:67-73 | A new entry carries the given id, name, category and distance, has rating 0, no reviews and no votes, and so its rating is consistent with its reviews. |
| Restaurants.WithReview | src/App.jsx:97-112 | The review goes at the end of the reviews, only reviews and rating change, and the rating becomes the rounded mean of all scores. |
| Restaurants.WithReviewRatingInRange | src/App.jsx:97-111 | If all scores, old and new, are from 1 to 5 stars, the new rating is between 1.0 and 5.0. |
| Restaurants.WithReviewRunningMean | src/App.jsx:97-111 | The new rating is the rounded mean of the old total plus the new score, over one more review. |
| Restaurants.AddReview | src/App.jsx:94-116 | The length is the same. Entries with another id are untouched. Each entry with the id gains the review at the end, gets a consistent rating, and changes nowhere else. |
| Restaurants.Vote | src/App.jsx:121-127 | The length and order are the same. Each entry with the id has exactly one more vote. Every other field and every other entry is unchanged. |
| Restaurants.Delete | src/App.jsx:129-131 | An entry survives iff it was present and carries another id. |
| Restaurants.DeleteCount | src/App.jsx:130 | The deletion removes exactly as many entries as carry the id. |
| Restaurants.VoteTotal | src/App.jsx:122-126 | The total of all votes grows by the number of entries carrying the id. |
| Restaurants.DeleteUndoesAdd | src/App.jsx:74 | Appending an entry whose id nobody else has, then deleting that id, gives back the original directory. |
| Restaurants.DeleteIdempotent | src/App.jsx:130 | Deleting the same id twice is the same as deleting it once. |
| Restaurants.OperationsKeepRatingsConsistent | src/App.jsx:92-131 | Adding a review, voting and deleting each keep every rating equal to the rounded mean of its reviews. |
| Members.Add | src/App.jsx:80-86 | An accepted name is appended once at the end, trimmed, and nothing else moves. Otherwise the list is unchanged. Afterwards the trimmed name is listed when it is non-empty. The invariant (trimmed, non-empty, distinct) is kept. |
| Members.Accepts | src/App.jsx:81 | The text is accepted iff it holds some non-space character and its trim is not yet listed. An accepted trim is a well-formed name. |
| Members.Remove | src/App.jsx:88-90 | A name survives iff it was present and differs from the removed one. The invariant is kept. |
| Members.RemoveLength | src/App.jsx:88-90 | On a distinct list, removing a listed name shortens it by one, and removing an unlisted name changes nothing. |
| Members.RemoveUndoesAdd | src/App.jsx:80-90 | Removing the name that `addMember` just accepted gives back the original list. |
| Roulette.ScaledIndex | src/App.jsx:42 | For a draw in [0, 1) and n > 0, the index is in [0, n). |
| Roulette.At | src/App.jsx:43 | Indexing yields the element exactly when the index is in range, and `undefined` otherwise. |
| Roulette.WinnerCount | src/App.jsx:57-59 | With at least two members, the number of payers is between 1 and min(3, n - 1). |
| Roulette.SliceFromStart | src/App.jsx:60 | `slice(0, k)` is a prefix of length min(k, n) for k >= 0, and counts back from the end for negative k. |
| Roulette.ScaledIndexHits | src/App.jsx:42 | Every slot can be drawn: the draw i / n lands in slot i. |
| Roulette.WinnerCountHits | src/App.jsx:57-59 | Every promised payer count from 1 to min(3, n - 1) can be drawn. |
| App.Init | src/App.jsx:13-33 | The first state has empty lists, no pick, no winners and no wheel spinning. |
| App.SpinRoulette | src/App.jsx:37-41 | With no restaurants nothing changes and no timer is set. Otherwise only the spinning flag (set) and the pick (cleared) change, and the timer captures the current list. |
| App.FinishRoulette | src/App.jsx:41-45 | The pick is an entry of the list captured at spin start, the spinning flag drops, and nothing else changes. |
| App.EveryRestaurantCanBePicked | src/App.jsx:41-43 | Every captured entry is the pick for some draw in [0, 1). |
| App.SpinCoffeeRoulette | src/App.jsx:48-55 | With fewer than two members nothing changes and no timer is set. Otherwise only the spinning flag (set) and the winners (cleared) change, and the timer captures the member list. |
| App.FinishCoffeeRoulette | src/App.jsx:55-62 | The winners are a prefix of the permutation, between 1 and min(3, n - 1) of them. Each is a captured member, and they are distinct when the members were. The flag drops and nothing else changes. |
| App.AddRestaurant | src/App.jsx:65-78 | Without a name or a category nothing changes. Otherwise exactly one entry with the form's fields, the given id and zero rating, reviews and votes is appended. Earlier entries stay in order. The form is cleared and closed. |
| App.AddReview | src/App.jsx:92-119 | Without a user or a comment nothing changes. Otherwise only the directory changes, by adding the review to the matching entries, and the review form is reset. |
| App.VoteForRestaurant | src/App.jsx:121-127 | Only the directory changes, by the vote on the matching entries. |
| App.DeleteRestaurant | src/App.jsx:129-131 | Only the directory changes. A pick already shown stays shown. |
| App.ClearAllData | src/App.jsx:133-138 | If declined, nothing changes. If confirmed, the directory and the pick are cleared and nothing else changes. |
| App.AddMember | src/App.jsx:80-86 | If rejected, nothing changes. If accepted, the trimmed name is appended and the field is cleared and closed. The member invariant is kept. |
| App.RemoveMember | src/App.jsx:88-90 | Only the member list changes, losing every copy of the name. The member invariant is kept. |
| App.ClearAllMembers | src/App.jsx:140-145 | If declined, nothing changes. If confirmed, the members and the winners are cleared and nothing else changes. |
| Session.Step | src/App.jsx:37-145 | Any event other than a spin click or a firing timer leaves the pending timers unchanged. |
| Session.SpinKeepsInv | src/App.jsx:37-62 | A spin click keeps the invariant. The timer it queues captured a list the guard accepted, and a raised spinning flag has that timer pending. |
| Session.FireKeepsInv | src/App.jsx:40-45 | The head timer firing keeps the invariant. The pick has a consistent rating, the winners are distinct and at most three, and a wheel still spinning keeps its own timer. |
| Session.DirectoryEditKeepsInv | src/App.jsx:65-138 | Adding, reviewing, voting on, deleting or clearing restaurants keeps the invariant. |
| Session.MemberEditKeepsInv | src/App.jsx:80-145 | Adding, removing or clearing members keeps the invariant. |
| Session.FormEditKeepsInv | src/App.jsx:365 | Typing into a form, or opening or closing an add form (the member toggle here, the restaurant toggle at line 457), keeps the invariant. |
| Session.Start | src/App.jsx:13-33 | The first render satisfies the invariant. |
| Session.StepKeepsInv | src/App.jsx:37-145 | Every event keeps the invariant (listed below this table). |
| Session.RunKeepsInv | src/App.jsx:37-145 | Any sequence of events the runtime can deliver keeps the invariant. |
| Session.ReachableInv | src/App.jsx:12-145 | Every world reachable from the first render satisfies the invariant. |
| Session.LunchSpinCycle | src/App.jsx:37-45 | Idle goes to Spinning (no pick shown), then to Result. The pick is drawn from the directory as it was at the click, whatever edit came in between. |
| Session.CoffeeSpinCycle | src/App.jsx:48-62 | With fewer than two members the click changes nothing. Otherwise the winners are 1 to min(3, n - 1) distinct members of the list as it was at the click. |
| Session.SpinThenVoteScenario | src/App.jsx:41-43 | For entries A, B, C with no votes, the draw 0.5 picks B, and a vote on the pick gives votes 0, 1, 0. |
| Session.RestaurantFormCycle | src/App.jsx:65-78 | The toggle opens the restaurant form. After a fill with a name and a category, the click lists one new entry, clears the form and closes it. |
| Session.MemberFormCycle | src/App.jsx:80-86 | The toggle opens the member form. For accepted text, the click lists the trimmed name, clears the field and closes the form, and the toggle reopens it. |

The invariant, `Session.Inv`, has five parts:

- `MembersOk`: the member list is trimmed, non-empty and duplicate-free.
- `RatingsOk`: every listed or picked rating equals the rounded mean of its reviews.
- `SpinsOk`: a spinning wheel shows no result, and a timer for it is pending.
- `WinnersOk`: the winners shown are at most three distinct names.
- `TimersOk`: every pending timer captured a list a spin click accepts.

## Left out

- Strings are sequences of Unicode scalar values, while JavaScript strings are UTF-16 code units. `trim`, `includes` and `!==` agree on well-formed text, because every character `trim` removes lies in the Basic Multilingual Plane. Lone surrogates cannot be represented.
- `src/firebase.js`: SDK initialisation with placeholder credentials. The component never uses it.
- Rendering, tab switching (`activeTab`), and the wheel geometry in `RouletteWheel` and `CoffeeRouletteWheel`: presentation only.
- The disabled state of the spin buttons: it lives in the rendering (`src/App.jsx:317`, `src/App.jsx:415`). The handlers do not check the spinning flags themselves, so the model lets spins overlap, and the invariant holds anyway.
- `setTimeout`: modelled as a first-in, first-out queue of pending timers, because both delays are the same 2000 ms. Elapsed time is not modelled.
- `Math.random()` and the `sort(() => Math.random() - 0.5)` shuffle are parameters: a draw in [0, 1) and any permutation. Probabilities, and the bias of that shuffle, are not modelled.
- `Date.now()` is the `now` parameter. Ids are not assumed unique, so every operation acts on every entry carrying the id.
- `window.confirm` is a boolean parameter. `alert` is a click that changes nothing.
- Floating point: ratings are exact rational means rounded to tenths. A double-precision `avg * 10` can land on the other side of a rounding tie in rare cases; the model does not reproduce that.
- The restaurant and review form controls (from `src/App.jsx:465` on) are not part of this model. Those forms are filled wholesale by `Session.FillRestaurantForm` and `Session.FillReviewForm`, and a review's rating is taken to be an integer.
- The rankings tab and the `distance` display are not part of this model.
