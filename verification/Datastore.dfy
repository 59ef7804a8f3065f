/** pkg/datastore/inmemory/datastore.go: a registry of model objects, each holding an
    attribute map. Its abstract value is a map of maps. */
module Datastores {
  import opened Wrappers

  const TOKEN_PRICES := "token_prices"
  const MODEL_GROUPS := "model_groups"
  const REQUEST_METADATA := "request-metadata"
  const COST_DIGEST := "cost_digest"

  datatype TokenPrices = TokenPrices(inputTokenPrice: real, outputTokenPrice: real)

  datatype RequestMetadataCount = RequestMetadataCount(requests: int, tokens: int)

  /** The attribute values this model knows; Other stands for any other one. */
  datatype Attribute =
    | Prices(prices: TokenPrices)
    | Groups(names: seq<string>)
    | Requests(count: RequestMetadataCount)
    | CostDigest(samples: seq<real>)
    | Other(tag: string)

  type Attributes = map<string, Attribute>
  type Registry = map<string, Attributes>

  class Model {
    const name: string
    var attributes: Attributes

    constructor (name: string)
      ensures this.name == name && attributes == map[]
    {
      this.name, attributes := name, map[];
    }

    /** Empty keys are ignored. */
    method Put(key: string, value: Attribute)
      modifies this
      ensures attributes == if key == "" then old(attributes) else old(attributes)[key := value]
    {
      if key == "" {
        return;
      }
      attributes := attributes[key := value];
    }

    method Delete(key: string)
      modifies this
      ensures attributes == old(attributes) - {key}
    {
      attributes := attributes - {key};
    }
  }

  class Store {
    var models: map<string, Model>

    ghost predicate Valid() reads this {
      forall n :: n in models ==> models[n].name == n
    }

    ghost function Repr(): set<object> reads this { {this} + set m: Model | m in models.Values :: m as object }

    /** The value of the store. */
    ghost function Contents(): Registry reads this, models.Values {
      map n | n in models :: if n in models then models[n].attributes else map[]
    }

    lemma KeysAreNames()
      ensures Contents().Keys == models.Keys
    {
    }

    constructor ()
      ensures Valid() && Contents() == map[] && fresh(Repr())
    {
      models := map[];
    }

    method GetOrCreateModel(name: string) returns (m: Model)
      requires Valid()
      modifies this
      ensures Valid() && fresh(Repr() - old(Repr()))
      ensures name in models && m == models[name]
      ensures Contents() == Created(old(Contents()), name)
    {
      if name in models {
        return models[name];
      }
      m := new Model(name);
      models := models[name := m];
      assert forall v :: v in models.Values ==> exists n :: n in models && models[n] == v;
      assert forall v :: v in models.Values ==> v == m || v in old(models).Values;
      assert models[name] == m;
    }

    method DeleteModel(name: string)
      requires Valid()
      modifies this
      ensures Valid() && Repr() <= old(Repr())
      ensures Contents() == old(Contents()) - {name}
    {
      models := models - {name};
      assert forall v :: v in models.Values ==> exists n :: n in models && models[n] == v;
      assert forall v :: v in models.Values ==> v in old(models).Values;
    }

    /** All models whose name and attributes satisfy `keep`, in an arbitrary order. */
    method GetModels(keep: (string, Attributes) -> bool) returns (result: seq<Model>)
      requires Valid()
      ensures forall m :: m in result <==> m in models.Values && keep(m.name, m.attributes)
      ensures forall i, j :: 0 <= i < j < |result| ==> result[i].name != result[j].name
    {
      result := [];
      var names := models.Keys;
      while names != {}
        invariant names <= models.Keys
        invariant forall m :: m in result <==> m in models.Values && m.name !in names && keep(m.name, m.attributes)
        invariant forall i, j :: 0 <= i < j < |result| ==> result[i].name != result[j].name
        decreases |names|
      {
        var n :| n in names;
        names := names - {n};
        if keep(n, models[n].attributes) {
          result := result + [models[n]];
        }
      }
    }
  }

  function AttributesOf(r: Registry, name: string): Attributes { if name in r then r[name] else map[] }

  /** The value of a store after GetOrCreateModel(name). */
  function Created(r: Registry, name: string): Registry {
    if name in r then r else r[name := map[]]
  }

  function Upserted(r: Registry, name: string, key: string, value: Attribute): Registry {
    var r' := Created(r, name);
    r'[name := r'[name][key := value]]
  }

  /** `ds.GetOrCreateModel(name).GetAttributes().Put(key, value)` */
  method Upsert(store: Store, name: string, key: string, value: Attribute)
    requires store.Valid() && key != ""
    modifies store.Repr()
    ensures store.Valid() && fresh(store.Repr() - old(store.Repr()))
    ensures store.Contents() == Upserted(old(store.Contents()), name, key, value)
  {
    var m := store.GetOrCreateModel(name);
    assert m in store.models.Values && m as object in store.Repr();
    m.Put(key, value);
  }

  /** `ds.GetOrCreateModel(name).GetAttributes().Delete(key)` on a model that exists. */
  method DeleteAttribute(store: Store, name: string, key: string)
    requires store.Valid() && name in store.models
    modifies store.Repr()
    ensures store.Valid() && store.Repr() == old(store.Repr())
    ensures store.Contents() == old(store.Contents())[name := old(store.Contents())[name] - {key}]
  {
    var m := store.models[name];
    assert m in store.models.Values && m as object in store.Repr();
    m.Delete(key);
  }
}
