/** The word tables of the deterministic language layer. */
module Vocabulary {

  const SMALL_NUMBERS: map<string, nat> := map[
    "zero" := 0, "one" := 1, "two" := 2, "three" := 3, "four" := 4,
    "five" := 5, "six" := 6, "seven" := 7, "eight" := 8, "nine" := 9,
    "ten" := 10, "eleven" := 11, "twelve" := 12, "thirteen" := 13, "fourteen" := 14,
    "fifteen" := 15, "sixteen" := 16, "seventeen" := 17, "eighteen" := 18, "nineteen" := 19]

  const TENS: map<string, nat> := map[
    "twenty" := 20, "thirty" := 30, "forty" := 40, "fourty" := 40, "fifty" := 50,
    "sixty" := 60, "seventy" := 70, "eighty" := 80, "ninety" := 90]

  const SCALES: map<string, nat> := map[
    "hundred" := 100, "thousand" := 1_000, "lakh" := 100_000, "million" := 1_000_000]

  const UNIT_PHRASES: seq<(seq<string>, string)> := [
    (["metric", "tonnes"], "tonnes"),
    (["metric", "tonne"], "tonnes"),
    (["metric", "tons"], "tonnes"),
    (["metric", "ton"], "tonnes")]

  const UNIT_WORDS: map<string, string> := map[
    "tonnes" := "tonnes", "tonne" := "tonnes", "tons" := "tonnes", "ton" := "tonnes",
    "t" := "tonnes", "mt" := "tonnes", "mts" := "tonnes",
    "kg" := "kg", "kgs" := "kg", "kilo" := "kg", "kilos" := "kg", "kilogram" := "kg",
    "kilograms" := "kg", "kilogramme" := "kg", "kilogrammes" := "kg",
    "unit" := "units", "units" := "units", "piece" := "units", "pieces" := "units",
    "pc" := "units", "pcs" := "units"]

  const UNSUPPORTED_UNITS: set<string> := {
    "bag", "bags", "sack", "sacks", "carton", "cartons", "box", "boxes", "crate", "crates",
    "container", "containers", "pallet", "pallets", "quintal", "quintals", "litre", "litres",
    "liter", "liters", "lb", "lbs", "pound", "pounds", "bushel", "bushels", "truckload", "truckloads"}

  const TRAILING_FILLER: set<string> := {
    "please", "thanks", "thank", "you", "asap", "urgently", "urgent", "immediately", "soon",
    "quickly", "now", "today", "tomorrow", "ok", "okay", "cheers", "kindly"}

  const LEADING_ARTICLES: set<string> := {"a", "an", "the", "some", "any", "me", "us"}

  const DESTINATION_MARKERS: seq<seq<string>> := [
    ["for", "delivery", "to"],
    ["for", "shipment", "to"],
    ["for", "export", "to"],
    ["delivered", "to"],
    ["shipped", "to"],
    ["shipping", "to"],
    ["destined", "for"],
    ["bound", "for"],
    ["export", "to"],
    ["deliver", "to"],
    ["ship", "to"],
    ["send", "to"],
    ["to"],
    ["for"]]

  const PRODUCT_TRAILING_NOISE: set<string> := {
    "for", "to", "of", "delivery", "shipment", "export", "exports", "delivered", "shipped",
    "shipping", "destined", "bound", "deliver", "ship", "send", "sending", "dispatch",
    "dispatched", "consignment"}

  /** Each contraction and the words it stands for. */
  const CONTRACTIONS: map<string, seq<string>> := map[
    "i'd" := ["i", "would"], "i'll" := ["i", "will"], "i'm" := ["i", "am"], "i've" := ["i", "have"],
    "we'd" := ["we", "would"], "we'll" := ["we", "will"], "we're" := ["we", "are"], "we've" := ["we", "have"],
    "what's" := ["what", "is"], "where's" := ["where", "is"], "who's" := ["who", "is"],
    "that's" := ["that", "is"], "it's" := ["it", "is"], "let's" := ["let", "us"],
    "don't" := ["do", "not"], "doesn't" := ["does", "not"], "can't" := ["cannot"],
    "won't" := ["will", "not"], "couldn't" := ["could", "not"], "wouldn't" := ["would", "not"],
    "shouldn't" := ["should", "not"], "isn't" := ["is", "not"], "aren't" := ["are", "not"]]
}
