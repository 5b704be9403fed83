/** Values shared by every part of the backend model: rows of the database tables, the
    parts of an HTTP request the core looks at, responses, and the environment the core
    treats as opaque (token codec, password hasher, signing secret). */
module Values {

  datatype Option<+T> = None | Some(value: T)

  /** JavaScript truthiness of a string that may be absent: `undefined` and "" are falsy. */
  predicate Present(s: Option<string>) {
    s.Some? && s.value != ""
  }

  /** The claims a session token carries (the payload given to `jwt.sign`). */
  datatype Claims = Claims(userId: int, name: string, role: string)

  /** A user's public identity: `req.user`, and the `user` object of the login response. */
  datatype Identity = Identity(id: int, name: string, role: string)

  /** A row of table `users`. */
  datatype UserRow = UserRow(id: int, name: string, role: string, passwordHash: string,
                             currentToken: Option<string>, lastLogin: Option<int>)

  /** A row of one of the lookup tables `device_types`, `locations`, `device_statuses`. */
  datatype NamedRow = NamedRow(id: int, name: string)

  /** A row of table `devices`; the three references are ids into the lookup tables. */
  datatype DeviceRow = DeviceRow(id: int, name: string, typeId: int, locationId: int, statusId: int)

  /** A device joined with the names of its type, location and status. */
  datatype DeviceView = DeviceView(id: int, name: string, typeName: string,
                                   locationName: string, statusName: string)

  /** Response bodies. Messages with an interpolated value are kept structured. */
  datatype Body =
    | StatusText                                   // res.sendStatus(code)
    | Message(text: string)                        // { message }
    | UnknownType(typeName: string)                // `Device type "<name>" not found.`
    | UnknownLocation(locationName: string)        // `Location "<name>" not found.`
    | UnknownStatus(statusName: string)            // `Device status "<name>" not found.`
    | DeviceNotFound(deviceId: int)                // `Device with ID <id> not found.`
    | UserBody(user: Identity)                     // { user: { id, name, role } }
    | ProtectedBody(text: string, user: Identity)  // { message, user }
    | DeviceBody(text: string, device: DeviceRow)  // { message, device }
    | DeviceList(views: seq<DeviceView>)
    | DeviceDetail(view: DeviceView)

  /** Cookie operations carried by a response (same-site and secure attributes omitted). */
  datatype Cookie =
    | SetCookie(name: string, value: string, httpOnly: bool, maxAgeMs: nat)
    | ClearCookie(name: string)

  datatype Response = Response(status: nat, body: Body, cookies: seq<Cookie>)

  /** What the core reads of a request: the `jwt` and `_csrfToken` cookies and the
      `x-csrf-token` header. */
  datatype Request = Request(jwt: Option<string>, csrfCookie: Option<string>, csrfHeader: Option<string>)

  /** The collaborators the core calls but does not implement:
      `sign(claims, secret, lifetimeSeconds, now)` is `jwt.sign`,
      `decode(token, secret, now)` is `jwt.verify` (None for a bad signature, a
      malformed token or an expired one), `verifyPassword(plain, hash)` is `bcrypt.compare`. */
  datatype Env = Env(secret: string,
                     sign: (Claims, string, nat, int) -> string,
                     decode: (string, string, int) -> Option<Claims>,
                     verifyPassword: (string, string) -> bool)

  const JwtCookie := "jwt"
  const CsrfCookie := "_csrfToken"

  /** `expiresIn: '1d'`. */
  const TokenLifetimeSeconds: nat := 24 * 60 * 60
  const JwtCookieMaxAgeMs: nat := 15 * 60 * 1000
  const CsrfCookieMaxAgeMs: nat := 60 * 60 * 1000

  const InvalidCredentialsText := "Invalid credentials"
  const CsrfMissingText := "CSRF token missing or invalid."
  const CsrfMismatchText := "CSRF token mismatch."
  const LoggedOutText := "Logged out successfully"
  const ProtectedText := "This is protected data"
  const AllFieldsRequiredText := "All fields are required: name, location, type, and status."
  const UpdateFieldsRequiredText := "Fields name and location are required for update."
  const DeviceAddedText := "Device added successfully"
  const DeviceUpdatedText := "Device updated successfully"
  const DeviceDeletedText := "Device deleted successfully"
}
