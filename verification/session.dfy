/**
 * The view controller at the root of the client: which screen is shown,
 * who is signed in, the cart, and the order number of a completed payment.
 * Each user action is one transition; actions whose button is not on the
 * current screen leave everything unchanged.
 */
module Session {
  import opened Wrappers
  import opened Catalog
  import opened Text
  import Cart

  datatype View = LoginView | MenuView | CartView | PaymentView | ConfirmationView | ReviewView

  /** The user record: the full form after registering, or a matrícula and placeholder name after signing in. */
  datatype User =
    | Registered(matricula: string, nombre: string, apellido: string, correo: string, password: string)
    | SignedIn(matricula: string, nombre: string)

  datatype App = App(view: View, user: Option<User>, cart: Cart.Cart, orderNumber: Option<int>)

  /** The root state on first render. */
  const Initial := App(LoginView, None, [], None)

  datatype LoginForm = LoginForm(matricula: string, nombre: string, apellido: string, correo: string, password: string)

  datatype PaymentForm = PaymentForm(cardNumber: string, cardName: string, expiry: string, cvv: string)

  /** One reading of `Math.random()`, as the exact fraction num / den. */
  datatype Draw = Draw(num: nat, den: nat)

  /** `Math.random()` returns a value in [0, 1). */
  type Random = d: Draw | d.num < d.den witness Draw(0, 1)

  /** The messages the screens raise with `alert`. */
  datatype Alert =
    | RegistrationSucceeded
    | LoginFieldsMissing
    | PaymentFieldsMissing
    | ReceiptPlaceholder
    | ReviewThanks
    | ReviewIncomplete

  datatype Action =
    | SubmitLogin(registering: bool, form: LoginForm)
    | AddToCart(item: Product)
    | OpenCart
    | Logout
    | BackToMenu
    | UpdateQuantity(id: int, delta: int)
    | RemoveItem(id: int)
    | ProceedToPayment
    | BackToCart
    | Pay(payment: PaymentForm, draw: Random)
    | DownloadReceipt
    | LeaveReview
    | ReturnToMenu
    | SubmitReview(rating: nat, review: string)
    | SkipReview

  /** The state after an action together with the alert it raised, if any. */
  datatype Outcome = Outcome(next: App, alert: Option<Alert>)

  /** The lowest and highest order numbers a payment can produce. */
  const MinOrderNumber := 100000
  const MaxOrderNumber := 999999

  /** The screen on which the action's button or form lives. */
  function Home(a: Action): View {
    match a
    case SubmitLogin(_, _) => LoginView
    case AddToCart(_) | OpenCart | Logout => MenuView
    case BackToMenu | UpdateQuantity(_, _) | RemoveItem(_) | ProceedToPayment => CartView
    case BackToCart | Pay(_, _) => PaymentView
    case DownloadReceipt | LeaveReview | ReturnToMenu => ConfirmationView
    case SubmitReview(_, _) | SkipReview => ReviewView
  }

  /**
   * Whether the action's button is on the current screen: only on its
   * home screen, with the pay button only for a non-empty cart, the
   * per-entry buttons only for entries in the cart, and review submission
   * only once a star is chosen.
   */
  predicate Offered(s: App, a: Action)
    ensures Offered(s, a) ==> s.view == Home(a)
    ensures a == ProceedToPayment ==> (Offered(s, a) <==> s.view == CartView && s.cart != [])
    ensures a.UpdateQuantity? || a.RemoveItem? ==>
      (Offered(s, a) ==> Cart.HasId(s.cart, a.id))
    ensures a.UpdateQuantity? && Offered(s, a) ==> a.delta == 1 || a.delta == -1
    ensures a.SubmitReview? ==> (Offered(s, a) <==> s.view == ReviewView && a.rating in {1, 2, 3, 4, 5})
  {
    match a
    case SubmitLogin(_, _) => s.view == LoginView
    case AddToCart(item) => s.view == MenuView && Listed(item)
    case OpenCart => s.view == MenuView
    case Logout => s.view == MenuView
    case BackToMenu => s.view == CartView
    case UpdateQuantity(id, delta) => s.view == CartView && Cart.HasId(s.cart, id) && (delta == 1 || delta == -1)
    case RemoveItem(id) => s.view == CartView && Cart.HasId(s.cart, id)
    case ProceedToPayment => s.view == CartView && |s.cart| > 0
    case BackToCart => s.view == PaymentView
    case Pay(_, _) => s.view == PaymentView
    case DownloadReceipt => s.view == ConfirmationView
    case LeaveReview => s.view == ConfirmationView
    case ReturnToMenu => s.view == ConfirmationView
    case SubmitReview(rating, _) => s.view == ReviewView && 1 <= rating <= 5
    case SkipReview => s.view == ReviewView
  }

  /** `Math.floor(100000 + Math.random() * 900000)`, computed exactly. */
  function OrderNumber(d: Random): (n: int)
    ensures MinOrderNumber <= n <= MaxOrderNumber
  {
    DivBelow(900000 * d.num, d.den, 900000);
    MinOrderNumber + (900000 * d.num) / d.den
  }

  lemma DivBelow(a: nat, b: nat, c: nat)
    requires 0 < b && a < c * b
    ensures a / b < c
  {
  }

  /** The fields sign-in needs: matrícula and password. */
  predicate SignInComplete(f: LoginForm) {
    Filled(f.matricula) && Filled(f.password)
  }

  /** The fields registration needs: all five. */
  predicate RegistrationComplete(f: LoginForm) {
    Filled(f.matricula) && Filled(f.nombre) && Filled(f.apellido) && Filled(f.correo) && Filled(f.password)
  }

  /** The login screen's submit button, in sign-in or in registration mode. */
  function SubmitLoginForm(s: App, registering: bool, f: LoginForm): (o: Outcome)
    requires s.view == LoginView
    ensures o.next.cart == s.cart && o.next.orderNumber == s.orderNumber
    ensures o.next.view == MenuView <==> !registering && SignInComplete(f)
    ensures o.next.view == MenuView ==> o.next.user == Some(SignedIn(f.matricula, "Usuario")) && o.alert == None
    ensures registering && RegistrationComplete(f) ==>
      && o.next.view == LoginView
      && o.next.user == Some(Registered(f.matricula, f.nombre, f.apellido, f.correo, f.password))
      && o.alert == Some(RegistrationSucceeded)
    ensures (if registering then !RegistrationComplete(f) else !SignInComplete(f)) ==>
      o.next == s && o.alert == Some(LoginFieldsMissing)
  {
    if registering then
      if RegistrationComplete(f) then
        Outcome(s.(user := Some(Registered(f.matricula, f.nombre, f.apellido, f.correo, f.password))),
                Some(RegistrationSucceeded))
      else Outcome(s, Some(LoginFieldsMissing))
    else if SignInComplete(f) then
      Outcome(s.(user := Some(SignedIn(f.matricula, "Usuario")), view := MenuView), None)
    else Outcome(s, Some(LoginFieldsMissing))
  }

  /** The payment screen's confirm button. */
  function HandlePayment(s: App, f: PaymentForm, d: Random): (o: Outcome)
    requires s.view == PaymentView
    ensures o.next.cart == s.cart && o.next.user == s.user
    ensures o.next.view == ConfirmationView <==>
      Filled(f.cardNumber) && Filled(f.cardName) && Filled(f.expiry) && Filled(f.cvv)
    ensures o.next.view == ConfirmationView ==>
      && o.next.orderNumber.Some? && MinOrderNumber <= o.next.orderNumber.value <= MaxOrderNumber
      && o.alert == None
    ensures o.next.view != ConfirmationView ==> o.next == s && o.alert == Some(PaymentFieldsMissing)
  {
    if Filled(f.cardNumber) && Filled(f.cardName) && Filled(f.expiry) && Filled(f.cvv) then
      Outcome(s.(orderNumber := Some(OrderNumber(d)), view := ConfirmationView), None)
    else Outcome(s, Some(PaymentFieldsMissing))
  }

  /** Back to the menu with the order finished: cart emptied, order number forgotten. */
  function FinishOrder(s: App): App
  {
    s.(cart := [], orderNumber := None, view := MenuView)
  }

  /** The review screen's submit button: a rating and a review that is not blank. */
  function HandleReview(s: App, rating: nat, review: string): (o: Outcome)
    requires s.view == ReviewView
    ensures o.next.view == MenuView || o.next == s
    ensures o.next.view == MenuView <==>
      rating > 0 && exists i :: 0 <= i < |review| && !IsWhitespace(review[i])
    ensures o.next.view == MenuView ==>
      o.next.cart == [] && o.next.orderNumber == None && o.next.user == s.user && o.alert == Some(ReviewThanks)
    ensures o.next.view != MenuView ==> o.alert == Some(ReviewIncomplete)
  {
    if rating > 0 && Filled(Trim(review)) then Outcome(FinishOrder(s), Some(ReviewThanks))
    else Outcome(s, Some(ReviewIncomplete))
  }

  /** The screen changes some button or handler can make. */
  predicate Edge(from: View, to: View) {
    match from
    case LoginView => to == MenuView
    case MenuView => to == CartView || to == LoginView
    case CartView => to == MenuView || to == PaymentView
    case PaymentView => to == CartView || to == ConfirmationView
    case ConfirmationView => to == ReviewView || to == MenuView
    case ReviewView => to == MenuView
  }

  /**
   * One user action: an action whose button is not shown changes nothing
   * and raises nothing; otherwise the screen stays or follows an edge of
   * the screen graph, the cart changes only on the menu and cart screens
   * or when it is emptied, and only the login screen and logout touch the
   * user.
   */
  function Step(s: App, a: Action): (o: Outcome)
    ensures !Offered(s, a) ==> o == Outcome(s, None)
    ensures o.next.view == s.view || Edge(s.view, o.next.view)
    ensures o.next.cart != s.cart ==>
      o.next.cart == [] || s.view == MenuView || s.view == CartView
    ensures o.next.cart != s.cart && s.view == MenuView ==> a.AddToCart? || a == Logout
    ensures o.next.user != s.user ==> s.view == LoginView || a == Logout
  {
    if !Offered(s, a) then Outcome(s, None)
    else
      match a
      case SubmitLogin(registering, form) => SubmitLoginForm(s, registering, form)
      case AddToCart(item) => Outcome(s.(cart := Cart.AddToCart(s.cart, item)), None)
      case OpenCart => Outcome(s.(view := CartView), None)
      case Logout => Outcome(s.(user := None, cart := [], view := LoginView), None)
      case BackToMenu => Outcome(s.(view := MenuView), None)
      case UpdateQuantity(id, delta) => Outcome(s.(cart := Cart.UpdateQuantity(s.cart, id, delta)), None)
      case RemoveItem(id) => Outcome(s.(cart := Cart.RemoveItem(s.cart, id)), None)
      case ProceedToPayment => Outcome(s.(view := PaymentView), None)
      case BackToCart => Outcome(s.(view := CartView), None)
      case Pay(payment, draw) => HandlePayment(s, payment, draw)
      case DownloadReceipt => Outcome(s, Some(ReceiptPlaceholder))
      case LeaveReview => Outcome(s.(view := ReviewView), None)
      case ReturnToMenu => Outcome(FinishOrder(s), None)
      case SubmitReview(rating, review) => HandleReview(s, rating, review)
      case SkipReview => Outcome(FinishOrder(s), None)
  }

  /** The state after a sequence of actions. */
  function Run(s: App, actions: seq<Action>): App
    decreases |actions|
  {
    if actions == [] then s else Run(Step(s, actions[0]).next, actions[1..])
  }

  /** Every cart entry is a listed product with some quantity. */
  predicate FromMenu(cart: Cart.Cart) {
    forall i :: 0 <= i < |cart| ==> Listed(Cart.ProductOf(cart[i]))
  }

  predicate InCheckout(v: View) {
    v == PaymentView || v == ConfirmationView || v == ReviewView
  }

  /** What holds of every state the client can reach. */
  predicate Invariant(s: App) {
    && Cart.Valid(s.cart)
    && FromMenu(s.cart)
    && (s.view == LoginView ==> s.cart == [] && (s.user.None? || s.user.value.Registered?))
    && (s.view != LoginView ==> s.user.Some? && s.user.value.SignedIn?)
    && (s.orderNumber.Some? <==> s.view == ConfirmationView || s.view == ReviewView)
    && (s.orderNumber.Some? ==> MinOrderNumber <= s.orderNumber.value <= MaxOrderNumber)
    && (InCheckout(s.view) ==> |s.cart| > 0)
  }

  lemma InitialInvariant()
    ensures Invariant(Initial)
  {
  }

  lemma FromMenuAdd(cart: Cart.Cart, item: Product)
    requires FromMenu(cart) && Listed(item)
    ensures FromMenu(Cart.AddToCart(cart, item))
    ensures Cart.PriceAgrees(cart, item)
  {
    forall i | 0 <= i < |cart| && cart[i].id == item.id
      ensures cart[i].precio == item.precio
    {
      ListedIdIsKey(Cart.ProductOf(cart[i]), item);
    }
  }

  /** Every action keeps the invariant. */
  lemma StepInvariant(s: App, a: Action)
    requires Invariant(s)
    ensures Invariant(Step(s, a).next)
  {
    if Offered(s, a) {
      match a
      case AddToCart(item) =>
        Cart.AddToCartValid(s.cart, item);
        FromMenuAdd(s.cart, item);
      case UpdateQuantity(id, delta) =>
        Cart.UpdateQuantityValid(s.cart, id, delta);
        var r := Cart.UpdateQuantity(s.cart, id, delta);
        assert FromMenu(r) by {
          forall i | 0 <= i < |r|
            ensures Listed(Cart.ProductOf(r[i]))
          {
            assert Cart.ProductOf(r[i]) == Cart.ProductOf(s.cart[i]);
          }
        }
      case RemoveItem(id) =>
        Cart.RemoveItemValid(s.cart, id);
        var r := Cart.RemoveItem(s.cart, id);
        assert FromMenu(r) by {
          forall i | 0 <= i < |r|
            ensures Listed(Cart.ProductOf(r[i]))
          {
            assert r[i] in s.cart;
          }
        }
      case _ =>
    }
  }

  /** Every sequence of actions from a state satisfying the invariant keeps it. */
  lemma {:induction false} RunInvariant(s: App, actions: seq<Action>)
    requires Invariant(s)
    ensures Invariant(Run(s, actions))
    decreases |actions|
  {
    if actions != [] {
      StepInvariant(s, actions[0]);
      RunInvariant(Step(s, actions[0]).next, actions[1..]);
    }
  }

  /** In every reachable state, adding a listed product raises the total by its price and the badge by one. */
  lemma AddOnMenu(s: App, item: Product)
    requires Invariant(s) && s.view == MenuView && Listed(item)
    ensures var t := Step(s, AddToCart(item)).next;
      && Cart.Total(t.cart) == Cart.Total(s.cart) + item.precio
      && Cart.ItemCount(t.cart) == Cart.ItemCount(s.cart) + 1
      && t.view == MenuView
  {
    FromMenuAdd(s.cart, item);
    Cart.AddToCartTotal(s.cart, item);
    Cart.AddToCartItemCount(s.cart, item);
  }

  /** The payment screen is entered only from the cart screen, and only with a non-empty cart. */
  lemma PaymentNeedsCart(s: App, a: Action)
    requires s.view != PaymentView && Step(s, a).next.view == PaymentView
    ensures s.view == CartView && a == ProceedToPayment && |s.cart| > 0
  {
  }

  /** The confirmation screen shows the total that the payment screen charged. */
  lemma ConfirmationTotal(s: App, a: Action)
    requires s.view == PaymentView && Step(s, a).next.view == ConfirmationView
    ensures Cart.Total(Step(s, a).next.cart) == Cart.Total(s.cart)
    ensures a.Pay? && Step(s, a).next.orderNumber.Some?
  {
  }

  /** The login screen is left only by signing in with a matrícula and a password. */
  lemma LoginExit(s: App, a: Action)
    requires s.view == LoginView && Step(s, a).next.view != LoginView
    ensures a.SubmitLogin? && !a.registering && SignInComplete(a.form)
    ensures Step(s, a).next.view == MenuView
  {
  }

  /** The login screen is reached again only by the menu's logout, which empties the cart and forgets the user. */
  lemma LogoutOnlyFromMenu(s: App, a: Action)
    requires s.view != LoginView && Step(s, a).next.view == LoginView
    ensures s.view == MenuView && a == Logout
    ensures Step(s, a).next.cart == [] && Step(s, a).next.user == None
  {
  }

  /** Leaving the confirmation or review screen for the menu always empties the cart and clears the order number. */
  lemma CheckoutExitClears(s: App, a: Action)
    requires (s.view == ConfirmationView || s.view == ReviewView) && Step(s, a).next.view == MenuView
    ensures a == ReturnToMenu || a == SkipReview || a.SubmitReview?
    ensures Step(s, a).next.cart == [] && Step(s, a).next.orderNumber == None
    ensures Step(s, a).next.user == s.user
  {
  }

  /** Pressing "Agregar" once per product of `items`, on the menu screen. */
  function Adds(items: seq<Product>): (actions: seq<Action>)
    ensures |actions| == |items|
  {
    seq(|items|, i requires 0 <= i < |items| => AddToCart(items[i]))
  }

  /** On the menu screen, a run of adds builds the cart that repeated addToCart builds. */
  lemma {:induction false} RunAdds(s: App, items: seq<Product>)
    requires s.view == MenuView
    requires forall i :: 0 <= i < |items| ==> Listed(items[i])
    ensures Run(s, Adds(items)) == s.(cart := Cart.AddEach(s.cart, items))
    decreases |items|
  {
    if items != [] {
      var t := Step(s, AddToCart(items[0])).next;
      assert Adds(items)[1..] == Adds(items[1..]);
      RunAdds(t, items[1..]);
    }
  }

  /** From the empty cart, the badge after a run of adds counts the adds. */
  lemma BadgeCountsAdds(s: App, items: seq<Product>)
    requires s.view == MenuView && s.cart == []
    requires forall i :: 0 <= i < |items| ==> Listed(items[i])
    ensures Cart.Badge(Run(s, Adds(items)).cart) == (if items == [] then None else Some(|items|))
  {
    RunAdds(s, items);
    Cart.AddEachItemCount([], items);
  }
}
