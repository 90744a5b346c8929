/** The service catalog, beer pricing and the cart as an ordered sequence of
    services (duplicates allowed). The cart operations are the copying updates
    the page passes to `setCart`: each builds a new sequence from the old one. */
module Shop {

  /** One purchasable service; `price` is in beers. */
  datatype Service = Service(id: int, title: string, price: int, description: string, image: string)

  /** The fixed catalog shown on the page. */
  function Services(): (s: seq<Service>)
    ensures |s| == 6
    ensures forall i | 0 <= i < |s| :: s[i].id == i + 1 && 1 <= s[i].price <= 8
  {
    [ Service(1, "Oil Change", 8, "Because your car deserves better than cooking oil!", "/OilChange.png"),
      Service(2, "Dirt Bike Maintenance", 7,
              "Keep your bike dirty on the trails, but clean in the engine! \U{1F3CD}\U{FE0F}", "/DirtBike.png"),
      Service(3, "Bike Tire Fix", 6, "No more excuses for skipping leg day!", "/BikeTire.png"),
      Service(4, "Wheel Rotation", 4, "Like musical chairs, but for your tires!", "/WheelRotation.png"),
      Service(5, "Guitar Lessons", 2, "Anyway, here's Wonderwall...", "/Guitar.png"),
      Service(6, "Pau Code Lessons", 1, "Learn to code or learn to cry trying!", "/Code.png") ]
  }

  /** `Math.max(1, price - discount)`: the discounted price, never below one beer. */
  function DiscountedPrice(price: int, discount: int): (r: int)
    ensures r >= 1 && r >= price - discount
    ensures r == 1 || r == price - discount
    ensures discount == 0 && price >= 1 ==> r == price
    ensures discount >= 0 ==> r <= if price >= 1 then price else 1
  {
    if price - discount > 1 then price - discount else 1
  }

  /** The cart total: a left fold adding each entry's discounted price, as `reduce` does. */
  function TotalBeers(cart: seq<Service>, discount: int): (r: int)
    ensures r >= |cart|
    ensures cart == [] ==> r == 0
  {
    if cart == [] then 0
    else TotalBeers(cart[..|cart| - 1], discount) + DiscountedPrice(cart[|cart| - 1].price, discount)
  }

  /** The sum of the undiscounted list prices. */
  function ListTotal(cart: seq<Service>): int {
    if cart == [] then 0 else ListTotal(cart[..|cart| - 1]) + cart[|cart| - 1].price
  }

  /** The total of a concatenation is the sum of the totals. */
  lemma {:induction false} TotalConcat(a: seq<Service>, b: seq<Service>, discount: int)
    ensures TotalBeers(a + b, discount) == TotalBeers(a, discount) + TotalBeers(b, discount)
    decreases |b|
  {
    if b != [] {
      assert (a + b)[..|a + b| - 1] == a + b[..|b| - 1];
      TotalConcat(a, b[..|b| - 1], discount);
    } else {
      assert a + b == a;
    }
  }

  /** Without a discount, a cart of services priced at least one beer costs its list price. */
  lemma {:induction false} TotalUndiscounted(cart: seq<Service>)
    requires forall i | 0 <= i < |cart| :: cart[i].price >= 1
    ensures TotalBeers(cart, 0) == ListTotal(cart)
  {
    if cart != [] {
      TotalUndiscounted(cart[..|cart| - 1]);
    }
  }

  /** A non-negative discount never raises the total. */
  lemma {:induction false} DiscountNeverRaisesTotal(cart: seq<Service>, discount: int)
    requires discount >= 0
    ensures TotalBeers(cart, discount) <= TotalBeers(cart, 0)
  {
    if cart != [] {
      DiscountNeverRaisesTotal(cart[..|cart| - 1], discount);
    }
  }

  /** `[...prev, service]`: the service goes at the end, even if already present. */
  function AddToCart(cart: seq<Service>, service: Service): (r: seq<Service>)
    ensures |r| == |cart| + 1 && r[..|cart|] == cart && r[|cart|] == service
    ensures multiset(r) == multiset(cart) + multiset{service}
  {
    cart + [service]
  }

  /** Adding a service raises the total by exactly its discounted price. */
  lemma TotalAfterAdd(cart: seq<Service>, service: Service, discount: int)
    ensures TotalBeers(AddToCart(cart, service), discount)
         == TotalBeers(cart, discount) + DiscountedPrice(service.price, discount)
  {
  }

  /** `cart.findIndex(item => item.id === id)`: the first index holding that id, or -1. */
  function FindIndex(cart: seq<Service>, id: int): (i: int)
    ensures -1 <= i < |cart|
    ensures i == -1 ==> forall j | 0 <= j < |cart| :: cart[j].id != id
    ensures 0 <= i ==> cart[i].id == id && forall j | 0 <= j < i :: cart[j].id != id
  {
    if cart == [] then -1
    else if cart[0].id == id then 0
    else
      var k := FindIndex(cart[1..], id);
      if k == -1 then -1 else k + 1
  }

  /** Deletes the first entry with the given id, keeping the others in order;
      a cart without that id is returned unchanged. */
  function RemoveFromCart(cart: seq<Service>, id: int): (r: seq<Service>)
    ensures (forall j | 0 <= j < |cart| :: cart[j].id != id) ==> r == cart
    ensures var i := FindIndex(cart, id);
      0 <= i ==> |r| == |cart| - 1 && r[..i] == cart[..i] && r[i..] == cart[i + 1..]
                 && multiset(r) + multiset{cart[i]} == multiset(cart)
  {
    var i := FindIndex(cart, id);
    if i == -1 then cart
    else
      assert cart == cart[..i] + [cart[i]] + cart[i + 1..];
      cart[..i] + cart[i + 1..]
  }

  /** Removing an id that is present lowers the total by the removed entry's discounted price. */
  lemma TotalAfterRemove(cart: seq<Service>, id: int, discount: int)
    requires FindIndex(cart, id) >= 0
    ensures var i := FindIndex(cart, id);
      TotalBeers(RemoveFromCart(cart, id), discount)
        == TotalBeers(cart, discount) - DiscountedPrice(cart[i].price, discount)
  {
    var i := FindIndex(cart, id);
    assert cart == cart[..i] + [cart[i]] + cart[i + 1..];
    TotalConcat(cart[..i] + [cart[i]], cart[i + 1..], discount);
    TotalConcat(cart[..i], [cart[i]], discount);
    TotalConcat(cart[..i], cart[i + 1..], discount);
  }

  /** Adding a service whose id is not yet in the cart, then removing that id,
      gives the original cart back. */
  lemma AddThenRemove(cart: seq<Service>, service: Service)
    requires forall j | 0 <= j < |cart| :: cart[j].id != service.id
    ensures RemoveFromCart(AddToCart(cart, service), service.id) == cart
  {
  }
}
