/** Record shapes of the delivery marketplace: users, restaurants, menu items,
    addresses and the order status column. Money is held in centavos. */
module Models {

  /** Database primary keys. */
  type Id = nat

  /** An amount of money in centavos (the source keeps reais in float columns). */
  type Money = nat

  datatype Option<T> = None | Some(value: T)

  /** The value of the `status` string column of an order. The six names the
      program writes or compares against are cases of their own; any other
      string is `Other`. */
  datatype Status =
    | PendingPayment   // 'Pendente de Pagamento'
    | Received         // 'Recebido'
    | InPreparation    // 'Em Preparo'
    | InDelivery       // 'Em Rota de Entrega'
    | Completed        // 'Concluído'
    | Cancelled        // 'Cancelado'
    | Other(name: string)

  function StatusName(s: Status): string
  {
    match s
    case PendingPayment => "Pendente de Pagamento"
    case Received => "Recebido"
    case InPreparation => "Em Preparo"
    case InDelivery => "Em Rota de Entrega"
    case Completed => "Concluído"
    case Cancelled => "Cancelado"
    case Other(n) => n
  }

  predicate IsKnownName(n: string)
  {
    n == "Pendente de Pagamento" || n == "Recebido" || n == "Em Preparo"
    || n == "Em Rota de Entrega" || n == "Concluído" || n == "Cancelado"
  }

  /** A status value is canonical when an `Other` never carries one of the six names. */
  predicate Canonical(s: Status)
  {
    s.Other? ==> !IsKnownName(s.name)
  }

  /** Reads the status column. */
  function ParseStatus(n: string): (s: Status)
    ensures StatusName(s) == n
    ensures Canonical(s)
  {
    if n == "Pendente de Pagamento" then PendingPayment
    else if n == "Recebido" then Received
    else if n == "Em Preparo" then InPreparation
    else if n == "Em Rota de Entrega" then InDelivery
    else if n == "Concluído" then Completed
    else if n == "Cancelado" then Cancelled
    else Other(n)
  }

  /** Writing a canonical status and reading it back gives the same status. */
  lemma ParseStatusName(s: Status)
    requires Canonical(s)
    ensures ParseStatus(StatusName(s)) == s
  {
  }

  /** The loyalty level column `nivel`: 'Bronze', 'Prata' or 'Ouro'. */
  datatype Tier = Bronze | Silver | Gold

  /** The `role` column: 'cliente' (the default) or 'restaurante'. */
  datatype Role = Customer | RestaurantOwner

  datatype Restaurant = Restaurant(
    name: string,
    cnpj: string,
    fee: Option<Money>,      // `taxa_entrega` is a nullable column
    prepMinutes: int,
    owner: Id,
    active: bool)

  datatype Category = Category(name: string, restaurant: Id)

  datatype Product = Product(
    name: string,
    price: Money,
    available: bool,
    category: Id,
    restaurant: Id)

  /** A delivery address; latitude and longitude are left out. */
  datatype Address = Address(
    street: string,
    number: string,
    complement: string,
    district: string,
    city: string,
    state: string,
    cep: string,
    owner: Id)

  /** A user: customer or restaurant owner. Its fields are updated in place by
      the routes (profile, loyalty, one-time code, role). */
  class User {
    const id: Id
    var name: string
    var email: string
    var phone: string
    var role: Role
    /** The one-to-one `restaurante` relation, seen from the owner. */
    var restaurant: Option<Id>
    var points: nat
    var tier: Tier
    var otpCode: Option<string>
    var otpExpiry: Option<int>

    /** A new account: role 'cliente', 0 points, tier 'Bronze', no code. */
    constructor (id: Id, name: string, email: string, phone: string)
      ensures this.id == id && this.name == name && this.email == email && this.phone == phone
      ensures role == Customer && restaurant == None
      ensures points == 0 && tier == Bronze
      ensures otpCode == None && otpExpiry == None
    {
      this.id := id;
      this.name := name;
      this.email := email;
      this.phone := phone;
      role := Customer;
      restaurant := None;
      points := 0;
      tier := Bronze;
      otpCode := None;
      otpExpiry := None;
    }
  }
}
