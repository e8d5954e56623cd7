/** The shopping assistant (Chatbot.tsx): a keyword classifier over the
    lower-cased message, tried in a fixed priority order, and the guard that
    drops blank input. The reply texts are represented by their intent. */
module Chatbot {

  import opened Text

  /** Which canned reply a message gets. */
  datatype Intent = SilkIntent | SaleIntent | SizeIntent | DeliveryIntent | ReturnsIntent | DefaultIntent

  /** The suggestion buttons offered on first opening and after an
      unrecognised message. */
  const QuickReplies: seq<string> := ["Show me silk sarees", "What's on sale?", "Size guide", "Delivery info", "Return policy"]

  /** `message.toLowerCase().includes(word)`. */
  predicate Mentions(message: string, word: string) {
    Contains(ToLower(message), word)
  }

  predicate MentionsSilk(m: string) { Mentions(m, "silk") }
  predicate MentionsSale(m: string) { Mentions(m, "sale") || Mentions(m, "discount") }
  predicate MentionsSize(m: string) { Mentions(m, "size") }
  predicate MentionsDelivery(m: string) { Mentions(m, "delivery") || Mentions(m, "shipping") }
  predicate MentionsReturns(m: string) { Mentions(m, "return") || Mentions(m, "refund") }

  /** `getBotResponse`: the first topic in the order silk, sale, size,
      delivery, returns whose keywords the message mentions. */
  function Classify(message: string): (r: Intent)
    ensures r == SilkIntent <==> MentionsSilk(message)
    ensures r == SaleIntent <==> !MentionsSilk(message) && MentionsSale(message)
    ensures r == SizeIntent <==> !MentionsSilk(message) && !MentionsSale(message) && MentionsSize(message)
    ensures r == DeliveryIntent <==>
      !MentionsSilk(message) && !MentionsSale(message) && !MentionsSize(message) && MentionsDelivery(message)
    ensures r == ReturnsIntent <==>
      !MentionsSilk(message) && !MentionsSale(message) && !MentionsSize(message) && !MentionsDelivery(message) &&
      MentionsReturns(message)
    ensures r == DefaultIntent <==>
      !MentionsSilk(message) && !MentionsSale(message) && !MentionsSize(message) && !MentionsDelivery(message) &&
      !MentionsReturns(message)
  {
    if MentionsSilk(message) then SilkIntent
    else if MentionsSale(message) then SaleIntent
    else if MentionsSize(message) then SizeIntent
    else if MentionsDelivery(message) then DeliveryIntent
    else if MentionsReturns(message) then ReturnsIntent
    else DefaultIntent
  }

  /** The suggestion buttons attached to each reply. */
  function Suggestions(i: Intent): (r: seq<string>)
    ensures |r| > 0
    ensures r == QuickReplies <==> i == DefaultIntent
  {
    match i
    case SilkIntent => ["Show silk sarees", "Banarasi collection", "Price range"]
    case SaleIntent => ["Show sale items", "Free shipping details", "Current offers"]
    case SizeIntent => ["Blouse sizes", "How to measure", "Size chart"]
    case DeliveryIntent => ["Track order", "Delivery charges", "Express delivery"]
    case ReturnsIntent => ["How to return", "Return policy", "Refund process"]
    case DefaultIntent => QuickReplies
  }

  /** Classification ignores letter case. */
  lemma ClassifyIgnoresCase(message: string)
    ensures Classify(ToLower(message)) == Classify(message)
  {
    ToLowerIdempotent(message);
  }

  lemma LowerConcat(a: string, b: string)
    ensures ToLower(a + b) == ToLower(a) + ToLower(b)
  {
    var l := ToLower(a + b);
    assert forall i :: 0 <= i < |l| ==> l[i] == (ToLower(a) + ToLower(b))[i];
  }

  /** A keyword written anywhere in a message, in any letter case, is
      mentioned by it. */
  lemma MentionedAnywhere(before: string, word: string, after: string, key: string)
    requires ToLower(word) == key
    ensures Mentions(before + word + after, key)
  {
    var m := before + word + after;
    LowerConcat(before + word, after);
    LowerConcat(before, word);
    var lm := ToLower(m);
    assert lm == ToLower(before) + key + ToLower(after);
    assert lm[|ToLower(before)|..|ToLower(before)| + |key|] == key;
    OccursImpliesContains(lm, key, |ToLower(before)|);
  }

  /** A message with "silk" anywhere in it, in any letter case, is about
      silk, whatever else it says. */
  lemma SilkDominates(before: string, word: string, after: string)
    requires ToLower(word) == "silk"
    ensures Classify(before + word + after) == SilkIntent
  {
    MentionedAnywhere(before, word, after, "silk");
  }

  /** A string lacking one of a word's characters cannot contain the word. */
  lemma MissingCharRulesOut(s: string, word: string, j: int)
    requires 0 <= j < |word| && word[j] !in s
    ensures !Contains(s, word)
  {
    ContainsIffOccurs(s, word);
  }

  /** A message in which one letter of a lower-case keyword appears in
      neither case does not mention the keyword. */
  lemma LetterMissing(message: string, key: string, j: int)
    requires 0 <= j < |key| && 'a' <= key[j] <= 'z'
    requires key[j] !in message && (key[j] as int - 32) as char !in message
    ensures !Mentions(message, key)
  {
    var lm := ToLower(message);
    forall i | 0 <= i < |lm|
      ensures lm[i] != key[j]
    {
      assert message[i] != key[j];
    }
    MissingCharRulesOut(lm, key, j);
  }

  lemma SilkReply(m: string)
    requires m == "Show me " + "silk" + " sarees"
    ensures Classify(m) == SilkIntent
  {
    SilkDominates("Show me ", "silk", " sarees");
  }

  lemma SaleReply(m: string)
    requires m == "What's on " + "sale" + "?"
    ensures Classify(m) == SaleIntent
  {
    LetterMissing(m, "silk", 3);
    MentionedAnywhere("What's on ", "sale", "?", "sale");
  }

  lemma SizeReply(m: string)
    requires m == "Size" + " guide"
    ensures Classify(m) == SizeIntent
  {
    NoSilkOrSale(m, 3, 1, 4);
    assert m == "" + "Size" + " guide";
    LowerSize();
    MentionedAnywhere("", "Size", " guide", "size");
    ClassifiedAsSize(m);
  }

  lemma DeliveryReply(m: string)
    requires m == "Delivery" + " info"
    ensures Classify(m) == DeliveryIntent
  {
    NoSilkOrSale(m, 0, 0, 2);
    LetterMissing(m, "size", 0);
    assert m == "" + "Delivery" + " info";
    LowerDelivery();
    MentionedAnywhere("", "Delivery", " info", "delivery");
    ClassifiedAsDelivery(m);
  }

  lemma ReturnsReply(m: string)
    requires m == "Return" + " policy"
    ensures Classify(m) == ReturnsIntent
  {
    NoSilkOrSale(m, 0, 0, 0);
    NoSizeOrDelivery(m, 0, 0, 0);
    assert m == "" + "Return" + " policy";
    LowerReturn();
    MentionedAnywhere("", "Return", " policy", "return");
    ClassifiedAsReturns(m);
  }

  lemma LowerSize()
    ensures ToLower("Size") == "size"
  {
  }

  lemma LowerDelivery()
    ensures ToLower("Delivery") == "delivery"
  {
  }

  lemma LowerReturn()
    ensures ToLower("Return") == "return"
  {
  }

  lemma ClassifiedAsSize(m: string)
    requires !MentionsSilk(m) && !MentionsSale(m) && Mentions(m, "size")
    ensures Classify(m) == SizeIntent
  {
  }

  lemma ClassifiedAsDelivery(m: string)
    requires !MentionsSilk(m) && !MentionsSale(m) && !Mentions(m, "size") && Mentions(m, "delivery")
    ensures Classify(m) == DeliveryIntent
  {
  }

  lemma ClassifiedAsReturns(m: string)
    requires !MentionsSilk(m) && !MentionsSale(m) && !MentionsSize(m) && !MentionsDelivery(m)
    requires Mentions(m, "return")
    ensures Classify(m) == ReturnsIntent
  {
  }

  /** A message missing the given letters of "silk", "sale" and "discount"
      (in both cases) mentions neither silk nor a sale. */
  lemma NoSilkOrSale(m: string, silk: int, sale: int, discount: int)
    requires 0 <= silk < 4 && "silk"[silk] !in m && ("silk"[silk] as int - 32) as char !in m
    requires 0 <= sale < 4 && "sale"[sale] !in m && ("sale"[sale] as int - 32) as char !in m
    requires 0 <= discount < 8 && "discount"[discount] !in m && ("discount"[discount] as int - 32) as char !in m
    ensures !MentionsSilk(m) && !MentionsSale(m)
  {
    LetterMissing(m, "silk", silk);
    LetterMissing(m, "sale", sale);
    LetterMissing(m, "discount", discount);
  }

  /** A message missing the given letters of "size", "delivery" and
      "shipping" (in both cases) mentions neither sizes nor delivery. */
  lemma NoSizeOrDelivery(m: string, size: int, delivery: int, shipping: int)
    requires 0 <= size < 4 && "size"[size] !in m && ("size"[size] as int - 32) as char !in m
    requires 0 <= delivery < 8 && "delivery"[delivery] !in m && ("delivery"[delivery] as int - 32) as char !in m
    requires 0 <= shipping < 8 && "shipping"[shipping] !in m && ("shipping"[shipping] as int - 32) as char !in m
    ensures !MentionsSize(m) && !MentionsDelivery(m)
  {
    LetterMissing(m, "size", size);
    LetterMissing(m, "delivery", delivery);
    LetterMissing(m, "shipping", shipping);
  }

  /** The topic each quick reply leads to, in order. */
  const QuickReplyTopics: seq<Intent> := [SilkIntent, SaleIntent, SizeIntent, DeliveryIntent, ReturnsIntent]

  /** The quick-reply topics are all different, and none is the default. */
  lemma QuickReplyTopicsDistinct()
    ensures forall i, j :: 0 <= i < j < |QuickReplyTopics| ==> QuickReplyTopics[i] != QuickReplyTopics[j]
    ensures DefaultIntent !in QuickReplyTopics
  {
  }

  /** Each quick reply leads to its own topic (see QuickReplyTopicsDistinct). */
  lemma QuickReplyReachesTopic(i: int)
    requires 0 <= i < |QuickReplies|
    ensures Classify(QuickReplies[i]) == QuickReplyTopics[i]
  {
    var m := QuickReplies[i];
    if i == 0 { SilkReply(m); }
    else if i == 1 { SaleReply(m); }
    else if i == 2 { SizeReply(m); }
    else if i == 3 { DeliveryReply(m); }
    else { ReturnsReply(m); }
  }

  /** Two different quick replies never get the same answer, and none gets
      the default one. */
  lemma QuickRepliesDistinctTopics(i: int, j: int)
    requires 0 <= i < |QuickReplies| && 0 <= j < |QuickReplies| && i != j
    ensures Classify(QuickReplies[i]) != Classify(QuickReplies[j])
    ensures Classify(QuickReplies[i]) != DefaultIntent
  {
    QuickReplyReachesTopic(i);
    QuickReplyReachesTopic(j);
    QuickReplyTopicsDistinct();
  }

  /** A chat transcript entry: what the shopper typed, or the topic the
      assistant answered with. */
  datatype Message = UserSaid(text: string) | BotAnswered(intent: Intent)

  /** `handleSendMessage`: blank input is dropped; otherwise the shopper's
      text and the assistant's answer to it are appended (the reply's delay
      is not modelled). */
  function SendMessage(log: seq<Message>, input: string): (r: seq<Message>)
    ensures Trim(input) == "" ==> r == log
    ensures Trim(input) != "" ==> r == log + [UserSaid(input), BotAnswered(Classify(input))]
  {
    if Trim(input) == "" then log else log + [UserSaid(input), BotAnswered(Classify(input))]
  }

  /** Nothing is sent exactly when the input is all whitespace. */
  lemma BlankInputIgnored(log: seq<Message>, input: string)
    ensures SendMessage(log, input) == log <==> forall i :: 0 <= i < |input| ==> IsSpace(input[i])
  {
    TrimEmptyIffBlank(input);
    if Trim(input) != "" {
      assert |SendMessage(log, input)| == |log| + 2;
    }
  }

  /** `handleQuickReply`: a suggestion button is sent without the blank check. */
  function QuickReply(log: seq<Message>, reply: string): (r: seq<Message>)
    ensures |r| == |log| + 2 && r[..|log|] == log
    ensures r[|log|] == UserSaid(reply) && r[|log| + 1] == BotAnswered(Classify(reply))
  {
    log + [UserSaid(reply), BotAnswered(Classify(reply))]
  }

  /** A quick reply behaves as if the shopper had typed it. */
  lemma QuickReplyIsTypedReply(log: seq<Message>, i: int)
    requires 0 <= i < |QuickReplies|
    ensures QuickReply(log, QuickReplies[i]) == SendMessage(log, QuickReplies[i])
  {
    var q := QuickReplies[i];
    assert !IsSpace(q[0]);
    TrimEmptyIffBlank(q);
  }
}
