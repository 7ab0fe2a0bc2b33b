/** The component over time: its state plus the spin timers still pending,
    driven by clicks, form edits and timers firing. */
module Session {

  import opened Wrappers
  import opened Seqs
  import Members
  import Roulette
  import Text
  import opened Restaurants
  import opened App

  /** The component state and the spin callbacks waiting to run. Both spins
      wait the same 2000 ms, so callbacks run in the order they were scheduled. */
  datatype World = World(app: State, pending: seq<Timer>)

  /** Everything that can happen to the component. */
  datatype Event =
    | ClickSpin
    | ClickCoffeeSpin
    | TimerFires(rand: real, shuffled: seq<string>)
    | TypeMember(text: string)
    | FillRestaurantForm(restaurantForm: RestaurantForm)
    | FillReviewForm(reviewForm: ReviewForm)
    | ToggleAddForm
    | ToggleAddMemberForm
    | ClickAddRestaurant(now: int)
    | ClickAddMember
    | ClickRemoveMember(name: string)
    | ClickAddReview(id: int)
    | ClickVote(id: int)
    | ClickDelete(id: int)
    | ClickClearAllData(confirmed: bool)
    | ClickClearAllMembers(confirmed: bool)

  /** What the runtime guarantees about an event: a timer fires only when one
      is pending, `Math.random()` lies in `[0, 1)`, and `sort` returns a
      permutation of the array it was given. */
  predicate Possible(w: World, e: Event) {
    match e
    case TimerFires(rand, shuffled) =>
      && |w.pending| > 0
      && 0.0 <= rand < 1.0
      && (w.pending[0].CoffeeTimer? ==> multiset(shuffled) == multiset(w.pending[0].members))
    case _ => true
  }

  /** Queues the timer a spin click scheduled, if any. */
  function Schedule(w: World, st: Started): World {
    World(st.state, w.pending + (if st.timer.Some? then [st.timer.value] else []))
  }

  /** The world after one event. Only clicks on the spin buttons add timers and
      only a timer firing removes one. */
  function Step(w: World, e: Event): (w': World)
    requires Possible(w, e)
    ensures !e.TimerFires? && !e.ClickSpin? && !e.ClickCoffeeSpin? ==> w'.pending == w.pending
  {
    var s := w.app;
    match e
    case ClickSpin => Schedule(w, SpinRoulette(s))
    case ClickCoffeeSpin => Schedule(w, SpinCoffeeRoulette(s))
    case TimerFires(rand, shuffled) =>
      (match w.pending[0]
       case LunchTimer(snapshot) => World(FinishRoulette(s, snapshot, rand), w.pending[1..])
       case CoffeeTimer(members) => World(FinishCoffeeRoulette(s, members, shuffled, rand), w.pending[1..]))
    case TypeMember(text) => w.(app := s.(newMember := text))
    case FillRestaurantForm(form) => w.(app := s.(newRestaurant := form))
    case FillReviewForm(form) => w.(app := s.(newReview := form))
    case ToggleAddForm => w.(app := s.(showAddForm := !s.showAddForm))
    case ToggleAddMemberForm => w.(app := s.(showAddMemberForm := !s.showAddMemberForm))
    case ClickAddRestaurant(now) => w.(app := AddRestaurant(s, now))
    case ClickAddMember => w.(app := AddMember(s))
    case ClickRemoveMember(name) => w.(app := RemoveMember(s, name))
    case ClickAddReview(id) => w.(app := App.AddReview(s, id))
    case ClickVote(id) => w.(app := VoteForRestaurant(s, id))
    case ClickDelete(id) => w.(app := DeleteRestaurant(s, id))
    case ClickClearAllData(confirmed) => w.(app := ClearAllData(s, confirmed))
    case ClickClearAllMembers(confirmed) => w.(app := ClearAllMembers(s, confirmed))
  }

  /** A pending timer as only a spin click can have scheduled it: the lunch
      list it captured was non-empty, the member list had two or more valid,
      distinct names. */
  predicate TimerOk(t: Timer) {
    match t
    case LunchTimer(rs) => |rs| > 0 && forall x :: x in rs ==> RatingConsistent(x)
    case CoffeeTimer(ms) => |ms| >= 2 && Members.ValidMembers(ms)
  }

  predicate LunchPending(pending: seq<Timer>) {
    exists k :: 0 <= k < |pending| && pending[k].LunchTimer?
  }

  predicate CoffeePending(pending: seq<Timer>) {
    exists k :: 0 <= k < |pending| && pending[k].CoffeeTimer?
  }

  /** The member list stays trimmed, non-empty and duplicate-free. */
  predicate MembersOk(s: State) {
    Members.ValidMembers(s.coffeeMembers)
  }

  /** Every rating, listed or shown as the pick, matches its reviews. */
  predicate RatingsOk(s: State) {
    && (forall x :: x in s.restaurants ==> RatingConsistent(x))
    && (s.selectedRestaurant.Some? ==> RatingConsistent(s.selectedRestaurant.value))
  }

  /** A spinning wheel shows no result, and a timer is on its way to stop it. */
  predicate SpinsOk(s: State, pending: seq<Timer>) {
    && (s.isSpinning ==> s.selectedRestaurant == None && LunchPending(pending))
    && (s.isCoffeeSpinning ==> s.selectedCoffeeMembers == [] && CoffeePending(pending))
  }

  /** The winners shown are at most three distinct names. */
  predicate WinnersOk(s: State) {
    NoDup(s.selectedCoffeeMembers) && |s.selectedCoffeeMembers| <= 3
  }

  predicate TimersOk(pending: seq<Timer>) {
    forall k :: 0 <= k < |pending| ==> TimerOk(pending[k])
  }

  /** What holds in every reachable world. */
  predicate Inv(w: World) {
    && MembersOk(w.app)
    && RatingsOk(w.app)
    && SpinsOk(w.app, w.pending)
    && WinnersOk(w.app)
    && TimersOk(w.pending)
  }

  /** The world on first render: initial state, no timers. */
  function Start(): (w: World)
    ensures Inv(w)
  {
    World(Init(), [])
  }

  /** A pending timer stays pending when another timer is queued behind it. */
  lemma PendingKeptByQueueing(pending: seq<Timer>, t: Timer)
    ensures LunchPending(pending) ==> LunchPending(pending + [t])
    ensures CoffeePending(pending) ==> CoffeePending(pending + [t])
    ensures t.LunchTimer? ==> LunchPending(pending + [t])
    ensures t.CoffeeTimer? ==> CoffeePending(pending + [t])
  {
    var q := pending + [t];
    assert q[|pending|] == t;
    if LunchPending(pending) {
      var k :| 0 <= k < |pending| && pending[k].LunchTimer?;
      assert q[k] == pending[k];
    }
    if CoffeePending(pending) {
      var k :| 0 <= k < |pending| && pending[k].CoffeeTimer?;
      assert q[k] == pending[k];
    }
  }

  /** A spin click keeps the invariant: the timer it queues captured a list
      the guard accepted, and the flag it raises has that timer pending. */
  lemma SpinKeepsInv(w: World, e: Event)
    requires Inv(w) && (e.ClickSpin? || e.ClickCoffeeSpin?)
    ensures Inv(Step(w, e))
  {
    var s := w.app;
    var st := if e.ClickSpin? then SpinRoulette(s) else SpinCoffeeRoulette(s);
    var w' := Step(w, e);
    assert w' == Schedule(w, st);
    if st.timer.Some? {
      var t := st.timer.value;
      PendingKeptByQueueing(w.pending, t);
      assert TimerOk(t);
      assert w'.pending == w.pending + [t];
      assert forall k :: 0 <= k < |w.pending| ==> w'.pending[k] == w.pending[k];
      assert TimersOk(w'.pending);
      assert SpinsOk(w'.app, w'.pending);
    } else {
      assert w'.pending == w.pending;
    }
  }

  /** A timer that is not at the head of the queue is still pending after the head fires. */
  lemma PendingKeptByFiring(pending: seq<Timer>)
    requires |pending| > 0
    ensures pending[0].CoffeeTimer? && LunchPending(pending) ==> LunchPending(pending[1..])
    ensures pending[0].LunchTimer? && CoffeePending(pending) ==> CoffeePending(pending[1..])
  {
    if pending[0].CoffeeTimer? && LunchPending(pending) {
      var k :| 0 <= k < |pending| && pending[k].LunchTimer?;
      assert pending[1..][k - 1] == pending[k];
    }
    if pending[0].LunchTimer? && CoffeePending(pending) {
      var k :| 0 <= k < |pending| && pending[k].CoffeeTimer?;
      assert pending[1..][k - 1] == pending[k];
    }
  }

  /** The head timer firing keeps the invariant: the pick comes from a list of
      consistent ratings, the winners from a valid member list, and a wheel
      still spinning keeps its own timer. */
  lemma FireKeepsInv(w: World, rand: real, shuffled: seq<string>)
    requires Inv(w) && Possible(w, TimerFires(rand, shuffled))
    ensures Inv(Step(w, TimerFires(rand, shuffled)))
  {
    // A timer for the other wheel sits behind the head and survives its firing.
    PendingKeptByFiring(w.pending);
  }

  /** An edit of the directory keeps the invariant. */
  lemma DirectoryEditKeepsInv(w: World, e: Event)
    requires Inv(w)
    requires e.ClickAddRestaurant? || e.ClickAddReview? || e.ClickVote? || e.ClickDelete? || e.ClickClearAllData?
    ensures Inv(Step(w, e))
  {
    var s := w.app;
    var w' := Step(w, e);
    assert w'.pending == w.pending;
    assert w'.app.coffeeMembers == s.coffeeMembers && w'.app.selectedCoffeeMembers == s.selectedCoffeeMembers;
    assert w'.app.isSpinning == s.isSpinning && w'.app.isCoffeeSpinning == s.isCoffeeSpinning;
    match e {
      case ClickAddRestaurant(now) =>
        if s.newRestaurant.name != "" && s.newRestaurant.category != "" {
          assert w'.app.restaurants == s.restaurants + [w'.app.restaurants[|s.restaurants|]];
        }
      case ClickAddReview(id) =>
        var review := Review(s.newReview.user, s.newReview.rating, s.newReview.comment);
        OperationsKeepRatingsConsistent(s.restaurants, id, review);
      case ClickVote(id) =>
        OperationsKeepRatingsConsistent(s.restaurants, id, Review("", 0, ""));
      case ClickDelete(id) =>
        OperationsKeepRatingsConsistent(s.restaurants, id, Review("", 0, ""));
      case ClickClearAllData(confirmed) =>
    }
  }

  /** An edit of the member list keeps the invariant. */
  lemma MemberEditKeepsInv(w: World, e: Event)
    requires Inv(w)
    requires e.ClickAddMember? || e.ClickRemoveMember? || e.ClickClearAllMembers?
    ensures Inv(Step(w, e))
  {
  }

  /** Typing into a form or opening and closing one touches no list, flag or timer. */
  lemma FormEditKeepsInv(w: World, e: Event)
    requires Inv(w)
    requires e.TypeMember? || e.FillRestaurantForm? || e.FillReviewForm? || e.ToggleAddForm? || e.ToggleAddMemberForm?
    ensures Inv(Step(w, e))
  {
  }

  /** Every event keeps the invariant. */
  lemma StepKeepsInv(w: World, e: Event)
    requires Inv(w) && Possible(w, e)
    ensures Inv(Step(w, e))
  {
    match e {
      case ClickSpin => SpinKeepsInv(w, e);
      case ClickCoffeeSpin => SpinKeepsInv(w, e);
      case TimerFires(rand, shuffled) => FireKeepsInv(w, rand, shuffled);
      case ClickAddRestaurant(_) => DirectoryEditKeepsInv(w, e);
      case ClickAddReview(_) => DirectoryEditKeepsInv(w, e);
      case ClickVote(_) => DirectoryEditKeepsInv(w, e);
      case ClickDelete(_) => DirectoryEditKeepsInv(w, e);
      case ClickClearAllData(_) => DirectoryEditKeepsInv(w, e);
      case ClickAddMember => MemberEditKeepsInv(w, e);
      case ClickRemoveMember(_) => MemberEditKeepsInv(w, e);
      case ClickClearAllMembers(_) => MemberEditKeepsInv(w, e);
      case _ => FormEditKeepsInv(w, e);
    }
  }

  /** The runtime can deliver every event of `es` in turn, starting from `w`. */
  predicate PossibleRun(w: World, es: seq<Event>)
    decreases |es|
  {
    |es| == 0 || (Possible(w, es[0]) && PossibleRun(Step(w, es[0]), es[1..]))
  }

  /** The world after the events of `es`, in order. */
  function Run(w: World, es: seq<Event>): World
    requires PossibleRun(w, es)
    decreases |es|
  {
    if |es| == 0 then w else Run(Step(w, es[0]), es[1..])
  }

  /** The invariant holds after any sequence of events the runtime can deliver. */
  lemma {:induction false} RunKeepsInv(w: World, es: seq<Event>)
    requires Inv(w) && PossibleRun(w, es)
    ensures Inv(Run(w, es))
    decreases |es|
  {
    if |es| > 0 {
      StepKeepsInv(w, es[0]);
      RunKeepsInv(Step(w, es[0]), es[1..]);
    }
  }

  /** Every world reachable from the first render satisfies the invariant. */
  lemma ReachableInv(es: seq<Event>)
    requires PossibleRun(Start(), es)
    ensures Inv(Run(Start(), es))
  {
    RunKeepsInv(Start(), es);
  }

  /** The three states of a spin as the screen shows them. */
  datatype Phase = Idle | Spinning | Result

  function LunchPhase(s: State): Phase {
    if s.isSpinning then Spinning else if s.selectedRestaurant.Some? then Result else Idle
  }

  function CoffeePhase(s: State): Phase {
    if s.isCoffeeSpinning then Spinning else if |s.selectedCoffeeMembers| > 0 then Result else Idle
  }

  /** A user event: anything but a spin click or a timer. */
  predicate UserEdit(e: Event) {
    !e.TimerFires? && !e.ClickSpin? && !e.ClickCoffeeSpin?
  }

  /** A lunch spin from a quiet world, with any user edit while the wheel
      turns: the click moves to Spinning with no pick shown, and the timer
      moves to Result with a pick drawn from the directory as it was at the
      click, even if the edit deleted, voted on or cleared it since. */
  lemma LunchSpinCycle(w: World, e: Event, rand: real)
    requires Inv(w) && w.pending == [] && |w.app.restaurants| > 0
    requires UserEdit(e) && 0.0 <= rand < 1.0
    ensures var w1 := Step(w, ClickSpin);
            var w2 := Step(w1, e);
            && LunchPhase(w1.app) == Spinning && w1.app.selectedRestaurant == None
            && w2.pending == [LunchTimer(w.app.restaurants)]
            && var w3 := Step(w2, TimerFires(rand, []));
               && LunchPhase(w3.app) == Result && w3.pending == []
               && w3.app.selectedRestaurant.value in w.app.restaurants
  {
  }

  /** A coffee spin from a quiet world with two or more members, with any user
      edit while the wheel turns: the winners are one to `min(3, n - 1)`
      distinct names of the member list as it was at the click. With fewer
      than two members the click changes nothing at all. */
  lemma CoffeeSpinCycle(w: World, e: Event, shuffled: seq<string>, rand: real)
    requires Inv(w) && w.pending == []
    requires UserEdit(e) && 0.0 <= rand < 1.0
    requires multiset(shuffled) == multiset(w.app.coffeeMembers)
    ensures |w.app.coffeeMembers| < 2 ==> Step(w, ClickCoffeeSpin) == w
    ensures |w.app.coffeeMembers| >= 2 ==>
              var w1 := Step(w, ClickCoffeeSpin);
              var w2 := Step(w1, e);
              && CoffeePhase(w1.app) == Spinning && w1.app.selectedCoffeeMembers == []
              && w2.pending == [CoffeeTimer(w.app.coffeeMembers)]
              && var winners := Step(w2, TimerFires(rand, shuffled)).app.selectedCoffeeMembers;
                 && 1 <= |winners| <= Roulette.Min(3, |w.app.coffeeMembers| - 1)
                 && NoDup(winners)
                 && forall i :: 0 <= i < |winners| ==> winners[i] in w.app.coffeeMembers
  {
    if |w.app.coffeeMembers| < 2 {
      assert w.pending + [] == w.pending;
    }
  }

  /** The restaurant form over one use: the toggle opens it, the form is
      filled, and a click with a name and a category lists one new entry,
      clears the form and closes it. */
  lemma RestaurantFormCycle(w: World, form: RestaurantForm, now: int)
    requires !w.app.showAddForm && form.name != "" && form.category != ""
    ensures var w1 := Step(w, ToggleAddForm);
            var w2 := Step(w1, FillRestaurantForm(form));
            var w3 := Step(w2, ClickAddRestaurant(now));
            && w1.app.showAddForm && w2.app.showAddForm
            && w3.app.restaurants == w.app.restaurants + [NewRestaurant(now, form.name, form.category, form.distance)]
            && w3.app.newRestaurant == EmptyRestaurantForm && !w3.app.showAddForm
  {
  }

  /** The member form over one use: the toggle opens it, the text is typed,
      and an accepted click lists the trimmed name, clears the field and
      closes the form again; a second toggle would reopen it. */
  lemma MemberFormCycle(w: World, text: string)
    requires !w.app.showAddMemberForm && Members.Accepts(w.app.coffeeMembers, text)
    ensures var w1 := Step(w, ToggleAddMemberForm);
            var w2 := Step(w1, TypeMember(text));
            var w3 := Step(w2, ClickAddMember);
            && w1.app.showAddMemberForm && w2.app.showAddMemberForm
            && w3.app.coffeeMembers == w.app.coffeeMembers + [Text.Trim(text)]
            && w3.app.newMember == "" && !w3.app.showAddMemberForm
            && Step(w3, ToggleAddMemberForm).app.showAddMemberForm
  {
  }

  /** Three fresh entries with votes 0, 0, 0; the spin draws 0.5 and picks the
      second; a vote on the pick leaves the votes at 0, 1, 0. */
  lemma SpinThenVoteScenario()
    ensures var a := NewRestaurant(1, "A", "한식", "");
            var b := NewRestaurant(2, "B", "양식", "");
            var c := NewRestaurant(3, "C", "일식", "");
            var s := Init().(restaurants := [a, b, c]);
            var st := SpinRoulette(s);
            var picked := FinishRoulette(st.state, st.timer.value.restaurants, 0.5);
            var voted := VoteForRestaurant(picked, picked.selectedRestaurant.value.id);
            && picked.selectedRestaurant == Some(b)
            && |voted.restaurants| == 3
            && voted.restaurants[0].votes == 0
            && voted.restaurants[1].votes == 1
            && voted.restaurants[2].votes == 0
  {
  }
}
