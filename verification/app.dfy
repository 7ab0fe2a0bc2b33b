/** The state of the `App` component and its event handlers, as pure transitions. */
module App {

  import opened Wrappers
  import opened Seqs
  import Text
  import Members
  import Roulette
  import opened Restaurants

  /** The add-restaurant form fields. */
  datatype RestaurantForm = RestaurantForm(name: string, category: string, distance: string)

  /** The review form fields; `restaurantId` is `null` until a restaurant is picked. */
  datatype ReviewForm = ReviewForm(restaurantId: Option<int>, user: string, rating: int, comment: string)

  /** Every `useState` hook of the component except the active tab. */
  datatype State = State(
    restaurants: seq<Restaurant>,
    coffeeMembers: seq<string>,
    selectedRestaurant: Option<Restaurant>,
    selectedCoffeeMembers: seq<string>,
    isSpinning: bool,
    isCoffeeSpinning: bool,
    showAddForm: bool,
    showAddMemberForm: bool,
    newRestaurant: RestaurantForm,
    newMember: string,
    newReview: ReviewForm)

  const EmptyRestaurantForm := RestaurantForm("", "", "")

  /** The review form as it is reset: no restaurant, empty user and comment, five stars. */
  const EmptyReviewForm := ReviewForm(None, "", 5, "")

  /** The component's state on first render: both lists empty, nothing selected, nothing spinning. */
  function Init(): (s: State)
    ensures s.restaurants == [] && s.coffeeMembers == []
    ensures s.selectedRestaurant == None && s.selectedCoffeeMembers == []
    ensures !s.isSpinning && !s.isCoffeeSpinning
  {
    State([], [], None, [], false, false, false, false, EmptyRestaurantForm, "", EmptyReviewForm)
  }

  /** A pending `setTimeout` callback of a spin, holding the list its closure
      captured when the spin began. */
  datatype Timer =
    | LunchTimer(restaurants: seq<Restaurant>)
    | CoffeeTimer(members: seq<string>)

  /** What a spin click produces: the next state and the timer it scheduled, if any. */
  datatype Started = Started(state: State, timer: Option<Timer>)

  // ---------------------------------------------------------------- lunch spin

  /** `spinRoulette`: with no restaurants nothing happens; otherwise the wheel
      starts spinning, the previous pick is cleared and a timer is scheduled
      over the list as it stands now. */
  function SpinRoulette(s: State): (r: Started)
    ensures |s.restaurants| == 0 ==> r == Started(s, None)
    ensures |s.restaurants| > 0 ==>
              && r.state == s.(isSpinning := r.state.isSpinning, selectedRestaurant := r.state.selectedRestaurant)
              && r.state.isSpinning && r.state.selectedRestaurant == None
              && r.timer == Some(LunchTimer(s.restaurants))
  {
    if |s.restaurants| == 0 then Started(s, None)
    else Started(s.(isSpinning := true, selectedRestaurant := None), Some(LunchTimer(s.restaurants)))
  }

  /** The lunch timer firing with `rand = Math.random()`: the pick is an entry of
      `snapshot`, the list captured when the spin began, whatever the directory
      holds now; the wheel stops and nothing else changes. */
  function FinishRoulette(s: State, snapshot: seq<Restaurant>, rand: real): (r: State)
    requires 0.0 <= rand < 1.0
    ensures r == s.(selectedRestaurant := r.selectedRestaurant, isSpinning := false)
    ensures |snapshot| > 0 ==> r.selectedRestaurant.Some? && r.selectedRestaurant.value in snapshot
    ensures |snapshot| == 0 ==> r.selectedRestaurant == None
  {
    var pick := Roulette.At(snapshot, Roulette.ScaledIndex(rand, |snapshot|));
    s.(selectedRestaurant := pick, isSpinning := false)
  }

  /** Every entry of the captured list is picked by some draw: the draw `i / n` picks entry `i`. */
  lemma EveryRestaurantCanBePicked(s: State, snapshot: seq<Restaurant>, i: nat)
    requires i < |snapshot|
    ensures var rand := i as real / |snapshot| as real;
            0.0 <= rand < 1.0 && FinishRoulette(s, snapshot, rand).selectedRestaurant == Some(snapshot[i])
  {
    Roulette.ScaledIndexHits(i, |snapshot|);
  }

  // --------------------------------------------------------------- coffee spin

  /** `spinCoffeeRoulette`: with fewer than two members the alert is shown and
      nothing changes; otherwise the wheel starts spinning, the previous winners
      are cleared and a timer is scheduled over the member list as it stands now. */
  function SpinCoffeeRoulette(s: State): (r: Started)
    ensures |s.coffeeMembers| < 2 ==> r == Started(s, None)
    ensures |s.coffeeMembers| >= 2 ==>
              && r.state == s.(isCoffeeSpinning := r.state.isCoffeeSpinning, selectedCoffeeMembers := r.state.selectedCoffeeMembers)
              && r.state.isCoffeeSpinning && r.state.selectedCoffeeMembers == []
              && r.timer == Some(CoffeeTimer(s.coffeeMembers))
  {
    if |s.coffeeMembers| < 2 then Started(s, None)
    else Started(s.(isCoffeeSpinning := true, selectedCoffeeMembers := []), Some(CoffeeTimer(s.coffeeMembers)))
  }

  /** The coffee timer firing: `shuffled` is what `sort` returned, a permutation
      of the captured `members`, and `rand = Math.random()` fixes how many pay.
      The winners are a prefix of the shuffle: between one and
      `min(3, n - 1)` of them, all captured members, distinct when the members
      were; the wheel stops and nothing else changes. */
  function FinishCoffeeRoulette(s: State, members: seq<string>, shuffled: seq<string>, rand: real): (r: State)
    requires 0.0 <= rand < 1.0
    requires multiset(shuffled) == multiset(members)
    ensures r == s.(selectedCoffeeMembers := r.selectedCoffeeMembers, isCoffeeSpinning := false)
    ensures |r.selectedCoffeeMembers| <= |shuffled| && r.selectedCoffeeMembers == shuffled[..|r.selectedCoffeeMembers|]
    ensures |members| >= 2 ==> 1 <= |r.selectedCoffeeMembers| <= Roulette.Min(3, |members| - 1)
    ensures forall i :: 0 <= i < |r.selectedCoffeeMembers| ==> r.selectedCoffeeMembers[i] in members
    ensures NoDup(members) ==> NoDup(r.selectedCoffeeMembers)
  {
    var count := Roulette.WinnerCount(rand, |members|);
    var winners := Roulette.SliceFromStart(shuffled, count);
    assert |shuffled| == |members| by {
      assert |multiset(shuffled)| == |multiset(members)|;
    }
    assert forall i :: 0 <= i < |winners| ==> winners[i] in multiset(shuffled);
    PermutationKeepsNoDup(members, shuffled);
    s.(selectedCoffeeMembers := winners, isCoffeeSpinning := false)
  }

  // ---------------------------------------------------------------- directory

  /** `addRestaurant` with `now = Date.now()`: when the form has a name and a
      category, one entry with no rating, reviews or votes is appended, the
      existing entries stay as they were, the form is cleared and closed;
      otherwise nothing changes. */
  function AddRestaurant(s: State, now: int): (r: State)
    ensures s.newRestaurant.name == "" || s.newRestaurant.category == "" ==> r == s
    ensures s.newRestaurant.name != "" && s.newRestaurant.category != "" ==>
              && r == s.(restaurants := r.restaurants, newRestaurant := EmptyRestaurantForm, showAddForm := false)
              && |r.restaurants| == |s.restaurants| + 1
              && r.restaurants[..|s.restaurants|] == s.restaurants
              && var x := r.restaurants[|s.restaurants|];
                 && x.id == now && x.name == s.newRestaurant.name
                 && x.category == s.newRestaurant.category && x.distance == s.newRestaurant.distance
                 && x.rating == 0 && x.reviews == [] && x.votes == 0
  {
    var form := s.newRestaurant;
    if form.name != "" && form.category != "" then
      var x := NewRestaurant(now, form.name, form.category, form.distance);
      s.(restaurants := s.restaurants + [x], newRestaurant := EmptyRestaurantForm, showAddForm := false)
    else
      s
  }

  /** `addReview(id)`: when the review form has a user and a comment, every
      entry carrying `id` gains the review and a recomputed rating and the form
      is reset; otherwise nothing changes. */
  function AddReview(s: State, id: int): (r: State)
    ensures s.newReview.user == "" || s.newReview.comment == "" ==> r == s
    ensures s.newReview.user != "" && s.newReview.comment != "" ==>
              && r == s.(restaurants := r.restaurants, newReview := EmptyReviewForm)
              && r.restaurants == Restaurants.AddReview(s.restaurants, id,
                   Review(s.newReview.user, s.newReview.rating, s.newReview.comment))
  {
    var form := s.newReview;
    if form.user != "" && form.comment != "" then
      var review := Review(form.user, form.rating, form.comment);
      s.(restaurants := Restaurants.AddReview(s.restaurants, id, review), newReview := EmptyReviewForm)
    else
      s
  }

  /** `voteForRestaurant(id)`: only the directory changes. */
  function VoteForRestaurant(s: State, id: int): (r: State)
    ensures r == s.(restaurants := r.restaurants)
    ensures r.restaurants == Vote(s.restaurants, id)
  {
    s.(restaurants := Vote(s.restaurants, id))
  }

  /** `deleteRestaurant(id)`: only the directory changes; a pick already shown stays shown. */
  function DeleteRestaurant(s: State, id: int): (r: State)
    ensures r == s.(restaurants := r.restaurants)
    ensures r.restaurants == Delete(s.restaurants, id)
  {
    s.(restaurants := Delete(s.restaurants, id))
  }

  /** `clearAllData` with the answer of the confirmation dialog. */
  function ClearAllData(s: State, confirmed: bool): (r: State)
    ensures !confirmed ==> r == s
    ensures confirmed ==> r == s.(restaurants := [], selectedRestaurant := None)
  {
    if confirmed then s.(restaurants := [], selectedRestaurant := None) else s
  }

  // ------------------------------------------------------------------ members

  /** `addMember`: when the trimmed text is non-empty and not yet listed it is
      appended and the field is cleared and closed; otherwise nothing changes. */
  function AddMember(s: State): (r: State)
    ensures !Members.Accepts(s.coffeeMembers, s.newMember) ==> r == s
    ensures Members.Accepts(s.coffeeMembers, s.newMember) ==>
              && r == s.(coffeeMembers := r.coffeeMembers, newMember := "", showAddMemberForm := false)
              && r.coffeeMembers == s.coffeeMembers + [Text.Trim(s.newMember)]
    ensures Members.ValidMembers(s.coffeeMembers) ==> Members.ValidMembers(r.coffeeMembers)
  {
    if Members.Accepts(s.coffeeMembers, s.newMember) then
      s.(coffeeMembers := Members.Add(s.coffeeMembers, s.newMember), newMember := "", showAddMemberForm := false)
    else
      s
  }

  /** `removeMember(name)`: only the member list changes, losing every copy of `name`. */
  function RemoveMember(s: State, name: string): (r: State)
    ensures r == s.(coffeeMembers := r.coffeeMembers)
    ensures forall m :: m in r.coffeeMembers <==> m in s.coffeeMembers && m != name
    ensures Members.ValidMembers(s.coffeeMembers) ==> Members.ValidMembers(r.coffeeMembers)
  {
    s.(coffeeMembers := Members.Remove(s.coffeeMembers, name))
  }

  /** `clearAllMembers` with the answer of the confirmation dialog. */
  function ClearAllMembers(s: State, confirmed: bool): (r: State)
    ensures !confirmed ==> r == s
    ensures confirmed ==> r == s.(coffeeMembers := [], selectedCoffeeMembers := [])
  {
    if confirmed then s.(coffeeMembers := [], selectedCoffeeMembers := []) else s
  }
}
