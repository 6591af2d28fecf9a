/** The service catalog of the booking script: categories, each an ordered list
    of services with whole-dollar prices; the radio-button labels
    `f"{service} - ${price}"` built from it; and the way the script recovers
    the chosen service and its price from the chosen label. */
module Catalog {

  import opened Wrappers
  import opened Text

  datatype Service = Service(name: string, price: nat)
  datatype Category = Category(name: string, services: seq<Service>)

  /** The `services` dictionary, in its insertion order. */
  function Services(): seq<Category> {
    [
      Category("Eyelashes", [
        Service("Classic Lashes", 50),
        Service("Volume Lashes", 75),
        Service("Hybrid Lashes", 65),
        Service("Infill", 25)
      ]),
      Category("Massages", [
        Service("Swedish Massage", 60),
        Service("Deep Tissue Massage", 80),
        Service("Hot Stone Massage", 90),
        Service("Aromatherapy Massage", 70)
      ])
    ]
  }

  /** What stands between a service name and its price in a label. */
  const SEPARATOR: string := " - $"

  /** `f"{service} - ${price}"`. */
  function Label(s: Service): string {
    s.name + SEPARATOR + Decimal(s.price)
  }

  /** The options of the service radio button, one per service, in catalog order. */
  function Options(services: seq<Service>): seq<string> {
    seq(|services|, i requires 0 <= i < |services| => Label(services[i]))
  }

  /** `label.split(" - $")[0]`. */
  function ServiceName(text: string): string {
    SplitFirst(text, SEPARATOR)
  }

  /** `services[category]`: `None` where Python raises `KeyError`. */
  function FindCategory(catalog: seq<Category>, category: string): (r: Option<seq<Service>>)
    ensures r.Some? <==> exists c :: c in catalog && c.name == category
    ensures r.Some? ==> Category(category, r.value) in catalog
  {
    if catalog == [] then None
    else if catalog[0].name == category then Some(catalog[0].services)
    else FindCategory(catalog[1..], category)
  }

  /** `services[category][name]`: `None` where Python raises `KeyError`. */
  function FindPrice(services: seq<Service>, name: string): (r: Option<nat>)
    ensures r.Some? <==> exists s :: s in services && s.name == name
    ensures r.Some? ==> Service(name, r.value) in services
  {
    if services == [] then None
    else if services[0].name == name then Some(services[0].price)
    else FindPrice(services[1..], name)
  }

  /** Lines 115-116 of the script: the service name read off the chosen label
      and the price looked up under that name. */
  function Select(catalog: seq<Category>, category: string, text: string): (r: Option<Service>)
    ensures r.Some? ==> r.value.name == ServiceName(text)
    ensures r.Some? ==> exists c :: c in catalog && c.name == category && r.value in c.services
  {
    match FindCategory(catalog, category)
    case None => None
    case Some(services) =>
      var name := ServiceName(text);
      match FindPrice(services, name)
      case None => None
      case Some(price) => Some(Service(name, price))
  }

  predicate UniqueServiceNames(services: seq<Service>) {
    forall i, j :: 0 <= i < j < |services| ==> services[i].name != services[j].name
  }

  /** What a dictionary literal guarantees (unique keys at both levels), plus
      the condition for labels to parse back: no service name holds the separator. */
  predicate WellFormed(catalog: seq<Category>) {
    && (forall i, j :: 0 <= i < j < |catalog| ==> catalog[i].name != catalog[j].name)
    && (forall c :: c in catalog ==> UniqueServiceNames(c.services))
    && (forall c, s :: c in catalog && s in c.services ==> !Contains(s.name, SEPARATOR))
  }

  /** A name that does not itself contain the separator is read back from its label. */
  lemma LabelRoundTrip(s: Service)
    requires !Contains(s.name, SEPARATOR)
    ensures ServiceName(Label(s)) == s.name
  {
    var text := Label(s);
    var n := |s.name|;
    assert text[n..n + 4] == SEPARATOR;
    assert OccursAt(text, SEPARATOR, n);
    forall k: nat | k < n
      ensures !OccursAt(text, SEPARATOR, k)
    {
      if k + 4 <= n {
        assert text[k..k + 4] == s.name[k..k + 4];
        assert OccursAt(text, SEPARATOR, k) == OccursAt(s.name, SEPARATOR, k);
      } else {
        NoStraddle(s.name, Decimal(s.price), k);
      }
    }
    var r := ServiceName(text);
    assert |r| == n;
  }

  /** The separator cannot start inside a name and run on into the separator
      written after it: no proper suffix of " - $" is also a prefix of it. */
  lemma NoStraddle(name: string, digits: string, k: nat)
    requires k < |name| < k + 4
    ensures !OccursAt(name + SEPARATOR + digits, SEPARATOR, k)
  {
    var text := name + SEPARATOR + digits;
    var n := |name|;
    assert text[n] == ' ' && text[n + 1] == '-';
    if n - k == 1 {
      assert text[k..k + 4][1] == ' ';
    } else if n - k == 2 {
      assert text[k..k + 4][3] == '-';
    } else {
      assert text[k..k + 4][3] == ' ';
    }
  }

  /** In a list with unique names, looking up a service's name gives its price. */
  lemma {:induction false} FindPriceAt(services: seq<Service>, i: nat)
    requires UniqueServiceNames(services) && i < |services|
    ensures FindPrice(services, services[i].name) == Some(services[i].price)
  {
    if i > 0 {
      assert services[0].name != services[i].name;
      assert services[1..][i - 1] == services[i];
      FindPriceAt(services[1..], i - 1);
    }
  }

  lemma {:induction false} FindCategoryAt(catalog: seq<Category>, c: nat)
    requires c < |catalog|
    requires forall i, j :: 0 <= i < j < |catalog| ==> catalog[i].name != catalog[j].name
    ensures FindCategory(catalog, catalog[c].name) == Some(catalog[c].services)
  {
    if c > 0 {
      assert catalog[0].name != catalog[c].name;
      assert catalog[1..][c - 1] == catalog[c];
      FindCategoryAt(catalog[1..], c - 1);
    }
  }

  /** Choosing the i-th option of a category selects exactly the i-th service
      at its catalog price. */
  lemma SelectionRoundTrip(catalog: seq<Category>, c: nat, i: nat)
    requires WellFormed(catalog)
    requires c < |catalog| && i < |catalog[c].services|
    ensures Select(catalog, catalog[c].name, Options(catalog[c].services)[i]) == Some(catalog[c].services[i])
  {
    var services := catalog[c].services;
    assert catalog[c] in catalog && services[i] in services;
    FindCategoryAt(catalog, c);
    LabelRoundTrip(services[i]);
    FindPriceAt(services, i);
  }

  /** A name without a dollar sign cannot hold the separator, which ends in one. */
  lemma NoDollarNoSeparator(name: string)
    requires '$' !in name
    ensures !Contains(name, SEPARATOR)
  {
    forall i: nat | i <= |name|
      ensures !OccursAt(name, SEPARATOR, i)
    {
      if i + 4 <= |name| {
        assert name[i + 3] in name;
        assert name[i..i + 4][3] == name[i + 3];
      }
    }
  }

  /** The script's own catalog meets the conditions above. */
  lemma ServicesWellFormed()
    ensures WellFormed(Services())
  {
    var catalog := Services();
    assert |catalog| == 2;
    assert catalog[0].name != catalog[1].name;
    EyelashNamesUnique();
    MassageNamesUnique();
    EyelashNoSeparator();
    MassageNoSeparator();
    assert forall c :: c in catalog ==> c == catalog[0] || c == catalog[1];
  }

  lemma EyelashNoSeparator()
    ensures forall s :: s in Services()[0].services ==> !Contains(s.name, SEPARATOR)
  {
    EyelashNoDollar();
    NoSeparatorIn(Services()[0].services);
  }

  lemma MassageNoSeparator()
    ensures forall s :: s in Services()[1].services ==> !Contains(s.name, SEPARATOR)
  {
    MassageNoDollar();
    NoSeparatorIn(Services()[1].services);
  }

  lemma EyelashNoDollar()
    ensures forall s :: s in Services()[0].services ==> '$' !in s.name
  {
    var services := Services()[0].services;
    forall i | 0 <= i < 4
      ensures '$' !in services[i].name
    {
      NoDollarIn(services[i].name);
    }
  }

  lemma MassageNoDollar()
    ensures forall s :: s in Services()[1].services ==> '$' !in s.name
  {
    var services := Services()[1].services;
    forall i | 0 <= i < 4
      ensures '$' !in services[i].name
    {
      NoDollarIn(services[i].name);
    }
  }

  /** Each service name of the catalog, checked for a dollar sign on its own. */
  lemma NoDollarIn(name: string)
    requires name in ["Classic Lashes", "Volume Lashes", "Hybrid Lashes", "Infill",
                      "Swedish Massage", "Deep Tissue Massage", "Hot Stone Massage", "Aromatherapy Massage"]
    ensures '$' !in name
  {
  }

  lemma NoSeparatorIn(services: seq<Service>)
    requires forall s :: s in services ==> '$' !in s.name
    ensures forall s :: s in services ==> !Contains(s.name, SEPARATOR)
  {
    forall s | s in services
      ensures !Contains(s.name, SEPARATOR)
    {
      NoDollarNoSeparator(s.name);
    }
  }

  lemma EyelashNamesUnique()
    ensures UniqueServiceNames(Services()[0].services)
  {
    var names := Services()[0].services;
    assert names[0].name[0] == 'C' && names[1].name[0] == 'V';
    assert names[2].name[0] == 'H' && names[3].name[0] == 'I';
  }

  lemma MassageNamesUnique()
    ensures UniqueServiceNames(Services()[1].services)
  {
    var names := Services()[1].services;
    assert names[0].name[0] == 'S' && names[1].name[0] == 'D';
    assert names[2].name[0] == 'H' && names[3].name[0] == 'A';
  }
}
