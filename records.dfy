/**
 * The documents the pages read and write: trips (`viajes`), receipts
 * (`gastos`) and the vehicle copy stored on a trip. A property that may be
 * missing is an Option, or "" where the code only tests its truthiness.
 */
module Records {
  import opened Wrappers

  /** The vehicle copy a trip carries (`vehiculoData`). */
  datatype VehicleInfo = VehicleInfo(id: string, alias: string, plate: string, owner: string)

  /** A trip document, or an optimistic placeholder shown while it is being saved. */
  datatype Trip = Trip(
    id: string,
    millas: Option<real>,             // parseFloat(millas); None when NaN or missing
    origen: string,
    destino: string,
    tipo: string,                     // 'trabajo' or 'personal'
    modo: string,                     // 'gps' or 'manual'
    fecha: Option<int>,               // Firestore Timestamp seconds; None when missing
    vehiculoData: Option<VehicleInfo>,
    vehiculoLabel: string,            // "" when missing
    isOptimistic: bool)

  /** A receipt document. */
  datatype Expense = Expense(
    id: string,
    status: string,                   // 'pending', 'approved' or 'rejected'
    uploadedAt: Option<int>,          // Timestamp seconds
    reviewedAt: Option<int>,          // Timestamp seconds
    updatedAt: Option<int>,           // Timestamp seconds
    amount: Option<real>,             // parseFloat(amount); None when NaN or missing
    imageUrl: string,
    storagePath: string,              // "" when missing
    clientAclaracion: Option<string>,
    rejectionReason: Option<string>)

  /** `parseFloat(v) || 0`: NaN (None) counts as 0. */
  function ParsedOrZero(v: Option<real>): (r: real)
    ensures v.None? ==> r == 0.0
    ensures v.Some? ==> r == v.value
  {
    v.GetOr(0.0)
  }
}
