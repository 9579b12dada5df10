/** The records the storefront passes around (src/types/index.ts), and the
    small Option wrapper used for the source's `null` / `undefined`. */
module Types {

  datatype Option<+T> = None | Some(value: T)

  /** `'admin' | 'customer'` */
  datatype Role = Admin | Customer

  /** The public identity: what the session exposes and persists. */
  datatype User = User(id: string, username: string, email: string, role: Role)

  /** A registry entry: an identity plus its password. */
  datatype Credential = Credential(id: string, username: string, email: string, password: string, role: Role)
  {
    /** The record with its password stripped (`const { password: _, ...rest } = found`). */
    function Identity(): User
    {
      User(id, username, email, role)
    }
  }

  /** A catalog record. `createdAt` (a Date) is an abstract timestamp. */
  datatype Product = Product(
    id: string,
    title: string,
    price: real,
    description: string,
    category: string,
    image: string,
    stock: int,
    createdBy: string,
    createdAt: int)

  /** An entry of the customer's wishlist (declared in src/pages/customer/Wishlist.tsx). */
  datatype WishlistItem = WishlistItem(id: string, title: string, price: real, image: Option<string>)
}
