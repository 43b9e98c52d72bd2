/** The WhatsApp helpers of lib/utils/format.ts: the phone digit filter
    (`formatWhatsAppPhone`, which is Strings.KeepDigits) and the order
    message. The currency text is an input: `formatCurrency` is
    locale formatting and is not part of this model. */
module WhatsApp {
  import opened Wrappers
  import opened Strings
  import Url

  /** For a normalised number, the filter only drops the leading `+`. */
  lemma WhatsAppPhoneOfInternational(digits: string)
    requires AllDigits(digits)
    ensures KeepDigits("+" + digits) == digits
  {
    KeepDigitsAppend("+", digits);
    KeepDigitsOfDigits(digits);
  }

  // ---------------------------------------------------------------------
  // The order message
  // ---------------------------------------------------------------------

  datatype MessageItem = MessageItem(name: string, quantity: int)

  const Bullet := "\U{2022} "

  /** `• name x qty`: the bullet, the name, and the quantity as the last
      space-separated word. */
  function ItemLine(item: MessageItem): (line: string)
    ensures Bullet <= line
    ensures |line| >= |Bullet| + |item.name| + 3
    ensures line[|Bullet|..|Bullet| + |item.name|] == item.name
    ensures AfterLast(line, ' ') == IntToDecimal(item.quantity)
  {
    var d := IntToDecimal(item.quantity);
    var line := Bullet + item.name + " x " + d;
    assert line == (Bullet + item.name + " x") + [' '] + d;
    AfterLastSuffix(Bullet + item.name + " x", ' ', d);
    line
  }

  /** The quantity reads back from the end of its line. */
  lemma ItemLineQuantity(item: MessageItem)
    requires item.quantity >= 0
    ensures var q := AfterLast(ItemLine(item), ' ');
      AllDigits(q) && DecimalValue(q) == item.quantity
  {
  }

  function ItemLines(items: seq<MessageItem>): (lines: seq<string>)
    ensures |lines| == |items|
    ensures forall i :: 0 <= i < |items| ==> lines[i] == ItemLine(items[i])
  {
    seq(|items|, i requires 0 <= i < |items| => ItemLine(items[i]))
  }

  /** The item list: one line per item, joined by newlines. */
  function ItemsList(items: seq<MessageItem>): string {
    Join(ItemLines(items), '\n')
  }

  /** A line holds a newline only if the product name does. */
  lemma LineNewlines(item: MessageItem)
    requires '\n' !in item.name
    ensures '\n' !in ItemLine(item)
  {
    var d := IntToDecimal(item.quantity);
    assert '\n' !in d by {
      assert forall i :: 0 <= i < |d| ==> d[i] == '-' || IsDigit(d[i]);
    }
    assert '\n' !in Bullet && '\n' !in " x ";
    assert ItemLine(item) == Bullet + item.name + " x " + d;
  }

  /** Splitting the item list at newlines gives back one line per item, in
      order, so there is neither a blank line nor a trailing newline. */
  lemma ItemsListLines(items: seq<MessageItem>)
    requires |items| > 0
    requires forall i :: 0 <= i < |items| ==> '\n' !in items[i].name
    ensures Split(ItemsList(items), '\n') == ItemLines(items)
  {
    var lines := ItemLines(items);
    forall i | 0 <= i < |lines|
      ensures '\n' !in lines[i]
    {
      LineNewlines(items[i]);
    }
    SplitJoin(lines, '\n');
  }

  /** The fulfillment line's label: pickup only for exactly `pickup`. */
  function FulfillmentLabel(fulfillmentType: string): (caption: string)
    ensures fulfillmentType == "pickup" ==> caption == "\U{1F6CD}\U{FE0F} Pickup"
    ensures fulfillmentType != "pickup" ==> caption == "\U{1F3E0} Delivery"
  {
    if fulfillmentType == "pickup" then "\U{1F6CD}\U{FE0F} Pickup" else "\U{1F3E0} Delivery"
  }

  /** The message text before encoding. */
  function MessageText(orderNumber: string, items: seq<MessageItem>, totalText: string, fulfillmentType: string): (text: string)
    ensures "\U{1F6D2} New Order: " + orderNumber + "\n\n" <= text
  {
    "\U{1F6D2} New Order: " + orderNumber + "\n\n" + ItemsList(items) + "\n\nTotal: " + totalText
      + "\nFulfillment: " + FulfillmentLabel(fulfillmentType)
  }

  /** `generateWhatsAppMessage`: the text, URI-encoded. */
  function WhatsAppMessage(orderNumber: string, items: seq<MessageItem>, totalText: string, fulfillmentType: string): (m: string)
    ensures Url.DecodeURIComponent(m) == Some(MessageText(orderNumber, items, totalText, fulfillmentType))
    ensures forall i :: 0 <= i < |m| ==> Url.EncodedChar(m[i])
  {
    Url.DecodeEncode(MessageText(orderNumber, items, totalText, fulfillmentType));
    Url.EncodeURIComponent(MessageText(orderNumber, items, totalText, fulfillmentType))
  }
}
