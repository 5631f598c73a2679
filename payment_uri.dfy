/** The UPI payment URI of `generate_qr` (app.py lines 70-75, qr.py lines
    24-29): a fixed payee, then the name and currency inserted verbatim,
    then an `&am=` segment only when an amount was given. */
module PaymentUri {
  import opened Text

  /** The payee address both handlers hard-code. */
  const PayeeId: string := "satyam84ya@fam"

  /** Everything before the name. */
  const Prefix: string := "upi://pay?pa=" + PayeeId + "&pn="

  /** Query defaults of both handlers (app.py lines 54-56, qr.py lines 15-17). */
  const DefaultAmount: string := ""
  const DefaultName: string := "Satyam"
  const DefaultCurrency: string := "INR"

  /** `f"upi://pay?pa={upi_id}&pn={name}&cu={currency}"`, followed by
      `upi_url += f"&am={amount}"` when the amount is non-empty. */
  function BuildUri(name: string, currency: string, amount: string): string {
    var upiUrl := Prefix + name + "&cu=" + currency;
    if amount != [] then upiUrl + "&am=" + amount else upiUrl
  }

  // ---------------------------------------------------------------------
  // Inverse: reading the three fields back

  datatype UriFields = UriFields(name: string, currency: string, amount: string)

  predicate StartsWith(s: string, p: string) {
    |p| <= |s| && s[..|p|] == p
  }

  predicate Plain(s: string) {
    '&' !in s
  }

  /** What follows the currency: nothing, or the amount segment. */
  function AmountTail(amount: string): string {
    if amount != [] then "&am=" + amount else []
  }

  /** Everything after the prefix: the name, `&cu=`, the currency and the
      amount segment. */
  function Body(name: string, currency: string, amount: string): string {
    name + ("&cu=" + (currency + AmountTail(amount)))
  }

  /** Reads `<currency>[&am=<amount>]`, the text after `&cu=`. */
  function ParseCurrencyAndAmount(s: string): Option<(string, string)> {
    var j := IndexOf(s, '&');
    var currency, rest := s[..j], s[j..];
    if rest == [] then Some((currency, []))
    else if |rest| > 4 && StartsWith(rest, "&am=") && Plain(rest[4..]) then Some((currency, rest[4..]))
    else None
  }

  /** Reads `<name>&cu=<currency>[&am=<amount>]`. */
  function ParseBody(s: string): Option<UriFields> {
    var i := IndexOf(s, '&');
    if !StartsWith(s[i..], "&cu=") then None
    else
      match ParseCurrencyAndAmount(s[i + 4..])
      case None => None
      case Some((currency, amount)) => Some(UriFields(s[..i], currency, amount))
  }

  /** Reads a payment URI whose name, currency and amount hold no '&'
      back into its fields. */
  function ParseUri(uri: string): Option<UriFields> {
    if StartsWith(uri, Prefix) then ParseBody(uri[|Prefix|..]) else None
  }

  lemma Joined(p: string, x: string)
    ensures StartsWith(p + x, p) && (p + x)[|p|..] == x
  {
    assert (p + x)[..|p|] == p;
  }

  lemma Split(p: string, uri: string)
    requires StartsWith(uri, p)
    ensures uri == p + uri[|p|..]
  {
    assert uri == uri[..|p|] + uri[|p|..];
  }

  lemma ShapeAfter(p: string, name: string, currency: string, amount: string)
    ensures amount != [] ==> p + name + "&cu=" + currency + "&am=" + amount == p + Body(name, currency, amount)
    ensures amount == [] ==> p + name + "&cu=" + currency == p + Body(name, currency, amount)
  {
    if amount != [] {
      Regroup6(p, name, "&cu=", currency, "&am=", amount);
    } else {
      Regroup4(p, name, "&cu=", currency);
      assert currency + AmountTail(amount) == currency;
    }
  }

  lemma Regroup4(a: string, b: string, c: string, d: string)
    ensures a + b + c + d == a + (b + (c + d))
  {
  }

  lemma Regroup6(a: string, b: string, c: string, d: string, e: string, f: string)
    ensures a + b + c + d + e + f == a + (b + (c + (d + (e + f))))
  {
  }

  /** The URI is the fixed prefix followed by the body. */
  lemma BuildShape(name: string, currency: string, amount: string)
    ensures BuildUri(name, currency, amount) == Prefix + Body(name, currency, amount)
  {
    ShapeAfter(Prefix, name, currency, amount);
  }

  lemma IndexOfPlain(x: string, rest: string)
    requires Plain(x) && StartsWith(rest, "&")
    ensures IndexOf(x + rest, '&') == |x|
  {
    assert (x + rest)[|x|] == rest[0];
  }

  lemma IndexOfAbsent(x: string)
    requires Plain(x)
    ensures IndexOf(x, '&') == |x|
  {
  }

  lemma PlainPrefix(s: string, k: nat)
    requires k <= |s| && forall i :: 0 <= i < k ==> s[i] != '&'
    ensures Plain(s[..k])
  {
  }

  lemma TailRead(currency: string, amount: string)
    requires Plain(currency) && Plain(amount)
    ensures ParseCurrencyAndAmount(currency + AmountTail(amount)) == Some((currency, amount))
  {
    var s := currency + AmountTail(amount);
    if amount == [] {
      assert s == currency;
      IndexOfAbsent(currency);
    } else {
      IndexOfPlain(currency, AmountTail(amount));
      assert s[|currency|..] == AmountTail(amount);
    }
  }

  lemma TailBuilt(s: string, currency: string, amount: string)
    requires ParseCurrencyAndAmount(s) == Some((currency, amount))
    ensures Plain(currency) && Plain(amount) && s == currency + AmountTail(amount)
  {
    var j := IndexOf(s, '&');
    PlainPrefix(s, j);
    var rest := s[j..];
    assert s == s[..j] + rest;
    assert currency == s[..j];
    if rest != [] {
      assert amount == rest[4..];
      assert rest == rest[..4] + amount;
      assert rest[..4] == "&am=";
      assert AmountTail(amount) == rest;
    }
  }

  /** The body of '&'-free fields reads back as those fields. */
  lemma BodyRead(name: string, currency: string, amount: string)
    requires Plain(name) && Plain(currency) && Plain(amount)
    ensures ParseBody(Body(name, currency, amount)) == Some(UriFields(name, currency, amount))
  {
    var s := Body(name, currency, amount);
    var tail := currency + AmountTail(amount);
    IndexOfPlain(name, "&cu=" + tail);
    var i := |name|;
    assert s[..i] == name;
    assert s[i..] == "&cu=" + tail;
    assert s[i..][..4] == "&cu=";
    assert s[i + 4..] == tail;
    TailRead(currency, amount);
  }

  /** The pieces `ParseBody` cuts a body into. */
  lemma BodyPieces(s: string)
    requires ParseBody(s).Some?
    ensures var f := ParseBody(s).value;
            var i := IndexOf(s, '&');
            StartsWith(s[i..], "&cu=") &&
            f.name == s[..i] && ParseCurrencyAndAmount(s[i + 4..]) == Some((f.currency, f.amount))
  {
  }

  /** Whatever reads as a body is the body of what it reads as. */
  lemma BodyBuilt(s: string)
    requires ParseBody(s).Some?
    ensures var f := ParseBody(s).value;
            Plain(f.name) && Plain(f.currency) && Plain(f.amount) && Body(f.name, f.currency, f.amount) == s
  {
    var f := ParseBody(s).value;
    BodyPieces(s);
    var i := IndexOf(s, '&');
    PlainPrefix(s, i);
    var tail := s[i + 4..];
    TailBuilt(tail, f.currency, f.amount);
    assert s[i..] == s[i..][..4] + tail;
    assert s == s[..i] + s[i..];
  }

  /** Reading a built URI gives back the name, currency and amount, as long
      as none of them holds an '&'. */
  lemma ParseBuild(name: string, currency: string, amount: string)
    requires Plain(name) && Plain(currency) && Plain(amount)
    ensures ParseUri(BuildUri(name, currency, amount)) == Some(UriFields(name, currency, amount))
  {
    BuildShape(name, currency, amount);
    Joined(Prefix, Body(name, currency, amount));
    BodyRead(name, currency, amount);
  }

  /** Every URI the reader accepts is the URI built from what it read, and
      what it read holds no '&': on '&'-free fields `BuildUri` and
      `ParseUri` are inverse bijections. */
  lemma BuildParse(uri: string)
    requires ParseUri(uri).Some?
    ensures var f := ParseUri(uri).value;
            Plain(f.name) && Plain(f.currency) && Plain(f.amount) &&
            BuildUri(f.name, f.currency, f.amount) == uri
  {
    Split(Prefix, uri);
    BodyBuilt(uri[|Prefix|..]);
    var f := ParseUri(uri).value;
    BuildShape(f.name, f.currency, f.amount);
  }

  /** Every URI starts with the scheme, the payee address of qr.py line 24
      and the name key, whatever the three fields hold. */
  lemma PrefixText(name: string, currency: string, amount: string)
    ensures StartsWith(BuildUri(name, currency, amount), "upi://pay?pa=satyam84ya@fam&pn=")
  {
    BuildShape(name, currency, amount);
    Joined(Prefix, Body(name, currency, amount));
    PrefixValue();
    SameStart(BuildUri(name, currency, amount), Prefix, "upi://pay?pa=satyam84ya@fam&pn=");
  }

  lemma PrefixValue()
    ensures Prefix == "upi://pay?pa=satyam84ya@fam&pn="
  {
  }

  lemma SameStart(s: string, p: string, q: string)
    requires StartsWith(s, p) && p == q
    ensures StartsWith(s, q)
  {
  }

  /** With every parameter at its default the URI names the default
      payee name and currency and carries no amount. */
  lemma DefaultUri()
    ensures BuildUri(DefaultName, DefaultCurrency, DefaultAmount) == Prefix + "Satyam&cu=INR"
  {
    BuildShape(DefaultName, DefaultCurrency, DefaultAmount);
    assert Body(DefaultName, DefaultCurrency, DefaultAmount) == "Satyam&cu=INR";
  }

  /** The name and the currency are inserted verbatim, with no escaping, so
      different fields can build the same URI: a name holding `&cu=` is
      indistinguishable from a currency holding it. */
  lemma FieldsNotDetermined()
    ensures BuildUri("A&cu=B", "C", "") == BuildUri("A", "B&cu=C", "")
  {
  }

  /** For the same reason an `&am=` segment can arrive through the
      currency: the URI is then the one the amount itself would build. */
  lemma AmountInCurrency(name: string, currency: string, amount: string)
    requires amount != []
    ensures BuildUri(name, currency + "&am=" + amount, []) == BuildUri(name, currency, amount)
  {
    BuildShape(name, currency + "&am=" + amount, []);
    BuildShape(name, currency, amount);
    assert Body(name, currency + "&am=" + amount, []) == Body(name, currency, amount);
  }

  /** The amount, when given, is the final segment, verbatim; without an
      amount the URI ends with the currency. */
  lemma AmountIsLastSegment(name: string, currency: string, amount: string)
    ensures amount == [] ==> BuildUri(name, currency, amount) == Prefix + name + "&cu=" + currency
    ensures amount != [] ==>
              var uri := BuildUri(name, currency, amount);
              |uri| == |Prefix| + |name| + 4 + |currency| + 4 + |amount| &&
              uri[|uri| - |amount| - 4..] == "&am=" + amount &&
              uri[..|uri| - |amount| - 4] == BuildUri(name, currency, [])
  {
    if amount != [] {
      LastSegment(BuildUri(name, currency, []), amount);
    }
  }

  lemma LastSegment(head: string, amount: string)
    ensures var u := head + "&am=" + amount;
            |u| == |head| + 4 + |amount| &&
            u[|u| - |amount| - 4..] == "&am=" + amount && u[..|u| - |amount| - 4] == head
  {
  }
}
