/** The state of the `Home` page component and the event handlers that change
    it: adding to and removing from the cart, editing the chat input, and
    submitting a chat turn whose streamed reply is applied chunk by chunk. */
module Page {
  import opened Text
  import opened Shop
  import opened Chat

  class Home {
    var cart: seq<Service>
    var discount: int
    var messages: seq<Message>
    var input: string
    var isLoading: bool

    /** Between events: the discount is 0 or the promotional value, the
        transcript is a run of turns, and no request is in flight. */
    ghost predicate Valid()
      reads this
    {
      (discount == 0 || discount == PromoDiscount) && WellFormed(messages) && !isLoading
    }

    /** The total shown in the cart panel under the current discount. */
    function Total(): (r: int)
      reads this
      ensures r >= |cart|
    {
      TotalBeers(cart, discount)
    }

    /** The page's initial state: empty cart, no discount, empty transcript and input. */
    constructor ()
      ensures Valid()
      ensures cart == [] && discount == 0 && messages == [] && input == "" && !isLoading
    {
      cart, discount, messages, input, isLoading := [], 0, [], "", false;
    }

    /** The input box's change handler. */
    method SetInput(text: string)
      requires Valid()
      modifies this`input
      ensures Valid() && input == text
    {
      input := text;
    }

    /** The deferred effect of "add to cart": the service is appended when the
        cart button was found on the page, and nothing happens otherwise. */
    method AddToCart(service: Service, cartButtonShown: bool)
      requires Valid()
      modifies this`cart
      ensures Valid()
      ensures cart == if cartButtonShown then Shop.AddToCart(old(cart), service) else old(cart)
      ensures cartButtonShown ==> Total() == old(Total()) + DiscountedPrice(service.price, discount)
    {
      if cartButtonShown {
        TotalAfterAdd(cart, service, discount);
        cart := Shop.AddToCart(cart, service);
      }
    }

    /** Removes the first cart entry with the given id, if there is one. */
    method RemoveFromCart(id: int)
      requires Valid()
      modifies this`cart
      ensures Valid()
      ensures cart == Shop.RemoveFromCart(old(cart), id)
      ensures FindIndex(old(cart), id) >= 0 ==>
        Total() == old(Total()) - DiscountedPrice(old(cart)[FindIndex(old(cart), id)].price, discount)
    {
      if FindIndex(cart, id) >= 0 {
        TotalAfterRemove(cart, id, discount);
      }
      cart := Shop.RemoveFromCart(cart, id);
    }

    /** Submits the chat input. A blank input changes nothing and posts nothing.
        Otherwise the input is posted to the chat relay, the transcript gains a
        user message carrying it and, if the relay answered, one assistant
        message holding the whole streamed reply; the discount is switched on
        if the reply holds the marker; the input is cleared and loading ends. */
    method HandleSubmit(response: Response) returns (posted: Option<string>)
      requires Valid()
      modifies this`messages, this`input, this`isLoading, this`discount
      ensures Valid()
      ensures IsBlank(old(input)) ==>
        posted == None && messages == old(messages) && input == old(input) && discount == old(discount)
      ensures !IsBlank(old(input)) ==> posted == Some(old(input)) && input == ""
      ensures !IsBlank(old(input)) && response.Failed? ==>
        messages == old(messages) + [Message(User, old(input))] && discount == old(discount)
      ensures !IsBlank(old(input)) && response.Streamed? ==>
        messages == old(messages) + [Message(User, old(input)), Message(Assistant, Concat(response.chunks))]
        && discount == Promote(old(discount), Concat(response.chunks))
    {
      if IsBlank(input) {
        return None;
      }
      var text := input;
      WellFormedTurn(messages, text, if response.Streamed? then Concat(response.chunks) else "");
      messages := messages + [Message(User, text)];
      input := "";
      isLoading := true;
      posted := Some(text);
      if response.Streamed? {
        messages := messages + [Message(Assistant, "")];
        StreamReply(response.chunks);
      }
      isLoading := false;
    }

    /** The read loop of a chat turn: each chunk is added to the running
        buffer, the discount is re-checked against the buffer, and the last
        transcript entry (the assistant message) is overwritten with the whole
        buffer. Afterwards that entry holds all chunks in arrival order and
        the earlier entries are untouched. */
    method StreamReply(chunks: seq<string>)
      requires |messages| > 0
      modifies this`messages, this`discount
      ensures var last := old(messages[|messages| - 1]);
        messages == old(messages[..|messages| - 1])
                    + [last.(content := if chunks == [] then last.content else Concat(chunks))]
      ensures discount == Promote(old(discount), Concat(chunks))
    {
      ghost var earlier := messages[..|messages| - 1];
      ghost var reply := messages[|messages| - 1];
      var fullContent := "";
      var k := 0;
      while k < |chunks|
        invariant 0 <= k <= |chunks|
        invariant fullContent == Concat(chunks[..k])
        invariant messages == earlier + [reply.(content := if k == 0 then reply.content else fullContent)]
        invariant discount == Promote(old(discount), fullContent)
      {
        PromoteStep(old(discount), fullContent, chunks[k]);
        assert chunks[..k + 1][..k] == chunks[..k];
        fullContent := fullContent + chunks[k];
        if Includes(fullContent, Marker) && discount == 0 {
          discount := PromoDiscount;
        }
        var last := |messages| - 1;
        messages := messages[..last] + [messages[last].(content := fullContent)];
        k := k + 1;
      }
      assert chunks[..k] == chunks;
      assert k == 0 <==> chunks == [];
    }
  }
}
