# Gamer Zeta point of sale, modelled in Dafny

This project models the business core of the Gamer Zeta point-of-sale API, a
NestJS service over TypeORM tables:

- the **product catalogue** (`ProductosService`): lookups, the active-only
  listing sorted by name, the per-category listing, partial updates, soft
  deletion through `activo`, the guarded stock decrement and the seeding of
  an empty catalogue;
- **sale recording** (`VentasService`): lines are processed in order, each
  checking and decrementing stock, then the sale is saved as `completada`
  with IVA at 19% and its receipt is issued; `update` changes the status and
  `remove` annuls the sale;
- **receipt issuing** (`BoletasService`): the number `BOL-nnnnnn` is derived
  from the most recently inserted receipt with `split('-')`, `parseInt`, `+1`
  and `padStart(6, '0')`; the customer defaults to `Consumidor Final`;
- **user administration** (`AuthService`): registration, login, profile
  updates, deletion that never removes the last administrator, and the seeding
  of the two built-in accounts;
- the **bearer-token guard** (`AuthGuard`).

Each repository is an in-memory table (`Table.Row<T>` rows in insertion
order, with the next auto-increment key). Services whose methods change tables
are classes whose methods are proved against pure functions of the old state;
the properties are lemmas about those functions. Money is in integer cents.
Exceptions are values of `Errors.Error`, whose `Message` renders the text the
services throw and `KindOf` its HTTP exception class; a database UNIQUE
violation gets a placeholder text naming the column, since its real text
comes from the database driver.

Parameters stand for code outside the model: a bcrypt hash is passed in as a
string (hashing is salted), the bcrypt comparison and the JWT signer and
verifier are function parameters, and the product seed list is a parameter.

Files: `wrappers.dfy` (Option), `text.dfy` (JavaScript `toString`,
`padStart`, `split`, `parseInt`), `errors.dfy`, `table.dfy`, `productos.dfy`,
`venta_entity.dfy` (the sale record, shared by sales and receipts),
`boletas.dfy`, `ventas.dfy`, `auth.dfy`, `guard.dfy`.

## Model

| member | source | states |
|---|---|---|
| Text.PadStart | src/boletas/boletas.service.ts:36 | the result has length max(width, \|s\|), ends with `s` and is filled with the pad character before it |
| Text.ParseDecimalString | src/boletas/boletas.service.ts:33 | `parseInt` of a non-empty decimal digit string is its value |
| Text.ParsePaddedDigits | src/boletas/boletas.service.ts:59-63 | `parseInt` of the zero-padded rendering of n gives n back |
| Text.SplitAtFirst | src/boletas/boletas.service.ts:60 | `split` of `a + sep + b` with no separator in `a` is `a` followed by the fields of `b` |
| Text.SplitWithoutSeparator | src/boletas/boletas.service.ts:60 | a string without the separator splits into itself alone |
| Text.SplitFirstField | src/auth/guard/auth.guard.ts:35 | the first field is the separator-free prefix up to the first separator; there is a second field exactly when the separator occurs |
| Errors.MensajeStockVenta | src/ventas/ventas.service.ts:31-33 | the sale's stock message is `actualizarStock`'s message plus ". Disponible: <stock>", a BadRequest; `actualizarStock`'s is a plain Error |
| Table.Find | src/productos/productos.service.ts:69-71 | a lookup returns a row with that key, and fails exactly when the key is absent |
| Table.FirstWhere | src/users/users.service.ts:15-17 | a lookup on a non-key column returns a table row whose value matches, and none exactly when no row matches (shared by the email, receipt-number and sale lookups) |
| Table.FindAt | src/productos/productos.service.ts:69-71 | in a key-ordered table the lookup of a row's key returns that row |
| Table.Save | src/productos/productos.service.ts:91 | saving a loaded entity overwrites the row with its key and leaves the other rows and the length unchanged |
| Table.SaveValid | src/productos/productos.service.ts:91 | saving keeps keys ordered and below the next key, and the key set unchanged |
| Table.FindAfterSave | src/ventas/ventas.service.ts:150 | after a save, the saved key looks up the saved row and every other key looks up what it did before |
| Table.Delete | src/boletas/boletas.service.ts:125 | removal drops exactly the rows with the key and keeps every other row |
| Table.DeleteValid | src/boletas/boletas.service.ts:125 | removal keeps keys ordered and below the next key |
| Table.DeleteRemovesOne | src/boletas/boletas.service.ts:123-125 | removing a present key removes exactly one row |
| Table.InsertValid | src/productos/productos.service.ts:56-59 | inserting under the next key keeps the table ordered and advances the key |
| Productos.FindOne | src/productos/productos.service.ts:68-78 | the product with that id, or NotFound "Producto con ID <id> no encontrado" exactly when no row has that id |
| Productos.Where | src/productos/productos.service.ts:81-83 | a filtered listing holds only table rows that pass the filter and every row that does |
| Productos.FindByCategoria | src/productos/productos.service.ts:80-84 | a row is listed if and only if it is in the table, active and of that category |
| Productos.FindAll | src/productos/productos.service.ts:61-66 | the listing is sorted by name, is a permutation of the active rows, and contains exactly the active rows |
| Productos.SortByNombre | src/productos/productos.service.ts:64 | sorting yields a name-ordered permutation |
| Productos.InsertByNombre | src/productos/productos.service.ts:64 | inserting into a name-ordered list keeps it ordered and adds exactly that row |
| Productos.NombreLeqTotal | src/productos/productos.service.ts:64 | any two names are comparable in the name order |
| Productos.NombreLeqTransitive | src/productos/productos.service.ts:64 | the name order is transitive |
| Productos.PatchOverwritesOnlySupplied | src/productos/productos.service.ts:89 | an update overwrites only the fields it carries: applying it twice equals once, an empty update is a no-op |
| Productos.DescontarStock | src/productos/productos.service.ts:103-107 | the decrement succeeds exactly when the quantity does not exceed the stock, leaves stock − quantity ≥ 0 and every other field; otherwise "Stock insuficiente para <nombre>" |
| Productos.ActualizarStockExamples | src/productos/productos.service.spec.ts:190-211 | stock 10 minus 3 leaves 7; stock 2 against 5 fails with "Stock insuficiente para PS5" |
| Productos.SaveKeepsStockNoNegativo | src/productos/productos.service.ts:107-108 | saving a row with non-negative stock keeps every stock non-negative |
| Productos.Sembrados | src/productos/productos.service.ts:42-47 | row i is seed record i created active under key firstId + i |
| Productos.ProductosService.Create | src/productos/productos.service.ts:56-59 | the new row is the DTO, active, under the next key, appended |
| Productos.ProductosService.Update | src/productos/productos.service.ts:86-92 | a missing id fails with NotFound and changes nothing; otherwise the row becomes the patched product |
| Productos.ProductosService.Remove | src/productos/productos.service.ts:94-98 | a soft delete: the row stays with `activo` false and every other field unchanged |
| Productos.ProductosService.ActualizarStock | src/productos/productos.service.ts:100-109 | the result is the guarded decrement of the stored product, saved only on success; stocks stay non-negative |
| Productos.ProductosService.CargarProductosIniciales | src/productos/productos.service.ts:39-54 | every seed record is saved, in order, and all of them are returned |
| Productos.ProductosService.CargarProductosSiNoExisten | src/productos/productos.service.ts:21-37 | an empty catalogue is seeded; a non-empty one is left unchanged |
| VentaEntity.FindOne | src/ventas/ventas.service.ts:99-110 | the sale with that id, or NotFound "Venta con ID <id> no encontrada" exactly when absent |
| Ventas.Redondear | src/ventas/ventas.service.ts:60-62 | `toFixed(2)`: the nearest cent, ties away from zero |
| Ventas.TotalEsSubtotalMasIva | src/ventas/ventas.service.ts:52-62 | in exact cent arithmetic, rounding the total separately still gives subtotal + rounded IVA (the program's floating-point total can differ; see Left out) |
| Ventas.IvaMasCercano | src/ventas/ventas.service.ts:52 | IVA is within half a cent of 19% of the subtotal |
| Ventas.EjemplosIva | src/ventas/ventas.service.spec.ts:130-139 | subtotal 1,000,000 gives IVA 190,000 and total 1,190,000 |
| Ventas.Paso | src/ventas/ventas.service.ts:28-49 | one line: unknown product fails with NotFound; stock below the quantity fails with "Stock insuficiente para <nombre>. Disponible: <stock>"; otherwise the entry is priced from the product and the product's stock drops by the quantity |
| Ventas.Registrar | src/ventas/ventas.service.ts:56-64 | the saved sale carries the entries, user and payment method, status `completada`, subtotal = the sum of the entries' subtotals, IVA and total computed from it, total = subtotal + IVA, IVA within half a cent of 19% |
| Ventas.DetalleDeProcesar | src/ventas/ventas.service.ts:27-47 | a successful run yields one entry per line in input order, each with the line's product and quantity, the product's name and price before the sale, and subtotal = price × quantity |
| Ventas.StockDeProcesar | src/ventas/ventas.service.ts:49 | after a successful run each product's stock has dropped by exactly the total quantity the lines request of it, and nothing else changed |
| Ventas.FalloConservaPrevios | src/ventas/ventas.service.ts:27-50 | a failed run stops at a line k: the catalogue is the one lines 0..k−1 produced (their decrements stay) and the error is line k's |
| Ventas.ProcesarConservaStockNoNegativo | src/ventas/ventas.service.ts:30-34 | no run leaves a negative stock behind |
| Ventas.Actualizada | src/ventas/ventas.service.ts:123-125 | only the status changes, and only when one is supplied |
| Ventas.AnularConserva | src/ventas/ventas.service.ts:147-151 | after annulment the sale is still found, `anulada`, and other sales are unaffected |
| Ventas.VentasService.ProcesarLineas | src/ventas/ventas.service.ts:23-50 | the loop leaves the catalogue and the entries of the line-by-line run, and the subtotal is the sum of the entries |
| Ventas.VentasService.Create | src/ventas/ventas.service.ts:20-90 | a failing line saves no sale and issues no receipt but keeps earlier decrements; otherwise the sale is appended as `completada` and its receipt is issued for its id and total |
| Ventas.VentasService.Update | src/ventas/ventas.service.ts:120-128 | a missing id fails with NotFound; otherwise the sale with the status replaced when supplied is saved |
| Ventas.VentasService.Remove | src/ventas/ventas.service.ts:147-151 | a missing id fails with NotFound; otherwise the sale is saved with status `anulada` and every other field unchanged |
| Boletas.Cliente | src/boletas/boletas.service.ts:69 | the supplied customer when non-empty, else "Consumidor Final" |
| Boletas.PrimerNumero | src/boletas/boletas.service.ts:59-63 | with no receipt, the number is BOL-000001 |
| Boletas.FormatoNoTrunca | src/boletas/boletas.service.ts:63 | the number is "BOL-" and at least six characters ending in the counter's digits |
| Boletas.SufijoDeFormatear | src/boletas/boletas.service.ts:59-63 | the suffix of a formatted number parses back to its counter |
| Boletas.SiguienteTrasFormateado | src/boletas/boletas.service.ts:53-61 | after a receipt numbered with counter n the next counter is n + 1 |
| Boletas.FormatearInyectivo | src/boletas/boletas.service.ts:63 | different counters give different numbers |
| Boletas.NumeroSinGuion | src/boletas/boletas.service.ts:59-63 | a last number without '-' gives a NaN counter and the number "BOL-000NaN" |
| Boletas.TrasNaN | src/boletas/boletas.service.ts:59-61 | after "BOL-000NaN" numbering restarts at counter 1 |
| Boletas.UltimaTieneMayorId | src/boletas/boletas.service.ts:53-58 | the last row is the one with the highest id |
| Boletas.Conflicto | src/boletas/entities/boleta.entity.ts:9-29 | a write is accepted exactly when no other row has its number or its sale |
| Boletas.Emitir | src/boletas/boletas.service.ts:59-74 | an accepted receipt has the next number, the defaulted customer, the sale's id and total, under the next key; issuing fails exactly when that receipt violates a UNIQUE constraint, with that violation |
| Boletas.EmitirCorrelativo | src/boletas/boletas.service.ts:50-75 | issuing from a table numbered 1..n gives number n + 1, keeps the table sequential, and fails exactly when the sale already has a receipt |
| Boletas.EmitirConNumeroLibre | src/boletas/boletas.service.ts:66-74 | with a fresh number, issuing fails only on the one-receipt-per-sale constraint |
| Boletas.FindOne | src/boletas/boletas.service.ts:84-95 | the receipt, or NotFound "Boleta con ID <id> no encontrada" exactly when absent |
| Boletas.FindByNumero | src/boletas/boletas.service.ts:97-108 | a receipt with that number, or NotFound "Boleta <numero> no encontrada" exactly when none has it |
| Boletas.FindByVenta | src/boletas/boletas.service.ts:110-115 | a receipt of that sale, or none exactly when no receipt has it |
| Boletas.PatchOverwritesOnlySupplied | src/boletas/boletas.service.ts:119 | an update overwrites only the fields it carries |
| Boletas.SaveKeepsUnicos | src/boletas/boletas.service.ts:119-120 | a save that passes the constraints keeps numbers and sales unique |
| Boletas.DeleteKeepsUnicos | src/boletas/boletas.service.ts:125 | removal keeps numbers and sales unique |
| Boletas.BoletasService.GenerarBoletaParaVenta | src/boletas/boletas.service.ts:50-75 | the receipt `Emitir` describes is appended, or the table is unchanged on a constraint error |
| Boletas.BoletasService.Create | src/boletas/boletas.service.ts:24-48 | an unknown sale fails with "Venta con ID <id> no encontrada"; otherwise a receipt for the sale's total is issued as above |
| Boletas.BoletasService.Update | src/boletas/boletas.service.ts:117-121 | a missing id fails with NotFound; otherwise the patched receipt is saved unless a constraint rejects it |
| Boletas.BoletasService.Remove | src/boletas/boletas.service.ts:123-126 | a missing id fails with NotFound; otherwise exactly that row is deleted |
| Auth.FindOneByEmail | src/users/users.service.ts:15-17 | a user with that email, or none exactly when no user has it |
| Auth.FindOne | src/auth/auth.service.ts:128 | the user, or NotFound "Usuario con ID <id> no encontrado" exactly when absent |
| Auth.Registrar | src/auth/auth.service.ts:51-62 | fails with "El email ya existe" exactly when the email is taken; otherwise one new user with role `cajero` and the hashed password |
| Auth.Login | src/auth/auth.service.ts:68-93 | unknown email fails with "Email inválido", failed comparison with "Contraseña inválida"; a session is only issued for a stored user whose hash accepts the password and carries the token of that user's payload and their email, name and role |
| Auth.LoginTrasRegistro | src/auth/auth.service.ts:56-92 | after registering, logging in with an accepted password yields a `cajero` session for the new key |
| Auth.Actualizar | src/auth/auth.service.ts:103-124 | an accepted update keeps the user's id and leaves no other user with its email |
| Auth.ActualizarAcepta | src/auth/auth.service.ts:103-124 | an update of an existing user succeeds whenever its email, if any, is held by no other user, the user's own email included |
| Auth.EmailEnUsoSiEsDeOtro | src/auth/auth.service.ts:106-114 | "El email ya está en uso" is raised exactly when a non-empty email held by another user is supplied; the user's own email does not raise it |
| Auth.ActualizarGuarda | src/auth/auth.service.ts:118-123 | a non-empty new password is stored as its hash; every field follows the patch or keeps its value |
| Auth.Eliminable | src/auth/auth.service.ts:128-137 | a missing id fails with "Usuario con ID <id> no encontrado"; an existing user is deletable exactly when it is not an admin or there are at least two admins, and "No puedes eliminar el último administrador" is raised exactly otherwise |
| Auth.AdminCountDelete | src/auth/auth.service.ts:133-142 | deleting a user lowers the admin count by one exactly when that user is an admin |
| Auth.EliminarConservaAdmin | src/auth/auth.service.ts:126-144 | an allowed deletion removes exactly one user and never the last administrator |
| Auth.SembrarCreaCuentas | src/auth/auth.service.ts:23-47 | after start-up both built-in accounts exist and at most two users were added |
| Auth.SembrarCuentasNuevas | src/auth/auth.service.ts:26-46 | a missing administrator is created as ("Admin", "admin@gamer.com", its hash, "admin") under the next key and a missing cashier as ("Cajero", "cajero@gamer.com", its hash, "cashier") as the last row; with both present nothing changes |
| Auth.SembrarIdempotente | src/auth/auth.service.ts:24-46 | a second start-up creates nothing |
| Auth.DeleteKeepsEmailsUnicos | src/auth/auth.service.ts:142 | removing a user keeps emails unique |
| Auth.SaveKeepsEmailsUnicos | src/users/entities/user.entity.ts:11-12 | a save that passes the UNIQUE check keeps emails unique |
| Auth.AuthService.OnModuleInit | src/auth/auth.service.ts:23-47 | the table after start-up is the seeded table |
| Auth.AuthService.Register | src/auth/auth.service.ts:51-66 | the registered user is appended and "Usuario creado exitosamente" returned, or nothing changes |
| Auth.AuthService.UpdateUser | src/auth/auth.service.ts:103-124 | the result is the specified update, saved only on success |
| Auth.AuthService.DeleteUser | src/auth/auth.service.ts:126-144 | exactly the allowed user is deleted, and a table with an administrator keeps one |
| Text.IntToString | src/boletas/boletas.service.ts:36 | `toString` of an integer is non-empty and contains '-' exactly when the integer is negative |
| Text.ParseInt | src/boletas/boletas.service.ts:33 | `parseInt` yields a negative value only from a string containing '-'; ParseDecimalString and ParsePaddedDigits give its value on digit strings |
| Text.Split | src/boletas/boletas.service.ts:33 | `split` yields at least one field and no field contains the separator |
| Errors.Message | src/productos/productos.service.ts:72-77 | the text of each exception the services throw; MensajeStockVenta relates the two stock messages |
| Errors.KindOf | src/productos/productos.service.ts:72-77 | the exception class of each error (NotFound, BadRequest, a plain Error) |
| Table.FindAfterInsert | src/productos/productos.service.ts:57-58 | after a new entity is saved under a fresh key, that key finds it and every other key finds what it found before |
| Productos.Crear | src/productos/productos.service.ts:57 | a created product takes the DTO's fields and is active; Sembrados and ProductosService.Create state it |
| Productos.ApplyPatch | src/productos/productos.service.ts:89 | `Object.assign`; PatchOverwritesOnlySupplied states each field |
| Productos.Activos | src/productos/productos.service.ts:62-63 | exactly the active rows, each taken from the table |
| Productos.StockActualizado | src/productos/productos.service.ts:100-109 | an unknown id fails with NotFound; otherwise it succeeds exactly when the quantity does not exceed the stock, giving the same product with the stock lowered by the quantity, else "Stock insuficiente para <nombre>" |
| Ventas.Procesar | src/ventas/ventas.service.ts:27-50 | the line-by-line run; DetalleDeProcesar, StockDeProcesar, FalloConservaPrevios and ProcesarConservaStockNoNegativo state its results |
| Ventas.Iva | src/ventas/ventas.service.ts:52 | IVA at 19% rounded to the cent; IvaMasCercano bounds it |
| Ventas.Total | src/ventas/ventas.service.ts:53 | the total rounded to the cent; TotalEsSubtotalMasIva relates it to the IVA |
| Ventas.SumaSubtotales | src/ventas/ventas.service.ts:23-38 | the running subtotal; ProcesarLineas proves the loop's subtotal equal to it |
| Boletas.Sufijo | src/boletas/boletas.service.ts:60 | `split('-')[1]` is undefined exactly when the number has no '-', and never contains '-' |
| Boletas.Ultima | src/boletas/boletas.service.ts:53-58 | no receipt exactly for an empty table, otherwise a receipt of the table; UltimaTieneMayorId shows it has the highest id |
| Boletas.Contador | src/boletas/boletas.service.ts:59-61 | 1 for an empty table, and a counter that is a number is always at least 1 |
| Boletas.Formatear | src/boletas/boletas.service.ts:63 | "BOL-" followed by at least six characters, without '-' for NaN or a non-negative counter |
| Boletas.SiguienteNumero | src/boletas/boletas.service.ts:53-63 | the next number starts "BOL-", has at least ten characters, and its suffix is readable by the following issue |
| Boletas.ApplyPatch | src/boletas/boletas.service.ts:119 | `Object.assign`; PatchOverwritesOnlySupplied states each field |
| Boletas.BoletasService.Issue | src/boletas/boletas.service.ts:53-74 | the result is `Emitir` of the old table; an accepted receipt is appended under the next key, a rejected one changes nothing |
| Auth.AdminCount | src/auth/auth.service.ts:131-133 | the number of admins, at most the number of users; AdminCountDelete relates it to deletion |
| Auth.EmailDeOtro | src/auth/auth.service.ts:107-111 | whether the email belongs to a different user; EmailEnUsoSiEsDeOtro states both directions |
| Auth.ApplyPatch | src/auth/auth.service.ts:116-123 | the update applied field by field; ActualizarGuarda states each field |
| Auth.CuentaAdmin | src/auth/auth.service.ts:28-33 | the built-in administrator account; SembrarCreaCuentas shows it exists after start-up |
| Auth.CuentaCajero | src/auth/auth.service.ts:39-44 | the built-in cashier account; SembrarCreaCuentas shows it exists after start-up |
| Auth.SembrarUno | src/auth/auth.service.ts:24-35 | one seeding step; SembrarUnoUnicos shows it keeps emails unique and the table well keyed |
| Auth.Sembrar | src/auth/auth.service.ts:23-47 | start-up seeding; SembrarCreaCuentas, SembrarCuentasNuevas and SembrarIdempotente state its effect |
| Guard.ExtractToken | src/auth/guard/auth.guard.ts:34-37 | a token is found only in a header starting "Bearer ", and is the space-free field after it |
| Guard.ExtractTokenBearer | src/auth/guard/auth.guard.ts:34-37 | "Bearer <t>", with or without more fields, yields t |
| Guard.ExtractTokenSinBearer | src/auth/guard/auth.guard.ts:36 | a header not starting "Bearer " yields no token |
| Guard.Autorizar | src/auth/guard/auth.guard.ts:15-31 | no or empty token fails with "Token no proporcionado"; a rejected token with "Token inválido o expirado"; success only with the verifier's payload |
| Guard.CanActivate | src/auth/guard/auth.guard.ts:15-32 | on success the request's user becomes the payload and the result is true; on failure the user is unchanged |

## Left out

- Controllers, routing, Swagger, CORS and module wiring are not modelled.
- `findAll`/`findByUsuario`/`findVentasDiarias` of sales and `findAll` of receipts order by creation date or read the clock; they are not modelled.
- Relation loading (`relations: [...]`) is not modelled; lookups return the row alone.
- Floating point: prices and amounts are exact integer cents, and IVA is rounded from the exact value, so binary rounding artefacts of `subtotal * 0.19` are not reproduced. `parseInt` and `toString` are modelled on unbounded integers: precision loss above 2^53 and exponent notation are not.
- The decimal(10,2) column limits, the 100-character name limit and database collation are not modelled; names are ordered by code point.
- Ventas.TotalEsSubtotalMasIva: holds in exact cent arithmetic only; the program computes IVA and total in binary floating point, so its total can be one cent below subtotal + IVA (subtotal 0.50 gives IVA 0.10 and total 0.59).
- The sale body's `cliente` and `rut` are read although the sale DTO does not declare them; the global validation pipe rejects undeclared fields, so over HTTP a sale's receipt always gets "Consumidor Final". The model takes them as optional fields of the sale.
- Concurrency: the stock check-then-decrement and the number derivation race under concurrent requests; the model is sequential.
- The sale's foreign key to the user (`usuarioId`) is not checked.
- Boletas.BoletasService.Create: the model takes the `findOne({ order })` call without a `where` to return the most recent receipt, as `generarBoletaParaVenta`'s `find({ order, take: 1 })` does; TypeORM 0.3 and later, which the users service's `findOneBy` implies, refuses a `findOne` without selection conditions, so as written `create` would instead fail with a plain Error once the sale is found.
- Errors.Message: the text of a UNIQUE violation is a placeholder naming the column; the real text is the database driver's duplicate-key message, raised as a TypeORM `QueryFailedError`.
- Boletas.BoletasService.Update: the receipt's foreign key to its sale (`ventaId`) is not checked, so an update to a `ventaId` no sale has is accepted, where the database would refuse it; only its UNIQUE constraint is modelled.
- The clock is not modelled: the sale's `fecha` and the receipt's `fechaEmision` creation-date columns are left out of the records.
- The bcrypt hash and comparison and the JWT signing and verification are parameters, not algorithms.
- Logging (`console.log`) is left out.
- The receipt DTOs, `UpdateUserDto` and the product seed file are not part of this model: their fields are taken to be the entity's columns, and the seed is a parameter.
- UsersService's `findOne`, `findAll`, `update` and `remove` are not defined in the users service; they are modelled as table operations, with a missing id failing with "Usuario con ID <id> no encontrado" as the users service tests expect. Because the update body may carry `rol`, an update can demote the last administrator; only deletion is guarded.
- Auth.FindOne: the users service hides the password in its responses; the model returns the whole row.
