/** The card of the board (src/models/card-model.ts): its identity and display
    fields, and the transient flags that the drag engine and the measurement
    collaborator overwrite in place. */
module CardModels {

  import opened Wrappers

  /** A measured rectangle in page coordinates. */
  datatype Rect = Rect(x: int, y: int, width: int, height: int)

  /** Every field is truthy. A number is falsy in the source only when it is
      zero (NaN cannot arise from integer coordinates). */
  predicate AllNonZero(r: Rect)
  {
    r.x != 0 && r.y != 0 && r.width != 0 && r.height != 0
  }

  /** Every field is falsy. */
  predicate AllZero(r: Rect)
  {
    r.x == 0 && r.y == 0 && r.width == 0 && r.height == 0
  }

  /** The rendered-and-visible flag after a measurement `r`, given the flag
      `visible` before it: a flag with hysteresis, switched on only by an
      all-non-zero rectangle and off only by an all-zero one. */
  function NextVisibility(visible: bool, r: Rect): (v: bool)
    ensures v && !visible ==> AllNonZero(r)
    ensures !v && visible ==> AllZero(r)
    ensures !visible && AllNonZero(r) ==> v
    ensures visible && AllZero(r) ==> !v
    ensures !AllNonZero(r) && !AllZero(r) ==> v == visible
  {
    if !visible && AllNonZero(r) then true
    else if visible && AllZero(r) then false
    else visible
  }

  /** The flag after the measurements `rs`, in order, starting from `visible`. */
  function VisibilityAfter(visible: bool, rs: seq<Rect>): bool
  {
    if rs == [] then visible else NextVisibility(VisibilityAfter(visible, rs[..|rs| - 1]), rs[|rs| - 1])
  }

  /** The verdict of the last decisive measurement of `rs` (all fields
      non-zero: visible; all zero: hidden), or `visible` when none is. */
  function LastVerdict(visible: bool, rs: seq<Rect>): bool
  {
    if rs == [] then visible
    else if AllNonZero(rs[|rs| - 1]) then true
    else if AllZero(rs[|rs| - 1]) then false
    else LastVerdict(visible, rs[..|rs| - 1])
  }

  /** Mixed measurements never flip the flag: after any run of measurements
      it is the verdict of the last decisive one. */
  lemma {:induction false} VisibilityFollowsLastVerdict(visible: bool, rs: seq<Rect>)
    ensures VisibilityAfter(visible, rs) == LastVerdict(visible, rs)
  {
    if rs != [] {
      VisibilityFollowsLastVerdict(visible, rs[..|rs| - 1]);
    }
  }

  /** Every mutable field of a card at one moment, so that a contract can say
      which fields an operation changes and that all others are kept. */
  datatype CardState = CardState(
    columnId: string, columnName: string, title: string, contato: string,
    placa: string, anoModelo: string, modelo: string, subtitle: string,
    data: string, status: string, sortOrder: int, hasRef: bool, hidden: bool,
    rect: Option<Rect>, isLocked: bool, isRenderedAndVisible: bool, invalidated: bool)

  class CardModel {
    // `id` is never reassigned by the board, so it is a constant here.
    const id: string
    var columnId: string
    var columnName: string
    var title: string
    var contato: string
    var placa: string
    var anoModelo: string
    var modelo: string
    var subtitle: string
    var data: string
    var status: string
    var sortOrder: int

    /** Whether a native view is attached (`_ref`); the view itself is foreign. */
    var hasRef: bool
    var hidden: bool
    var rect: Option<Rect>
    var isLocked: bool
    var isRenderedAndVisible: bool
    var invalidated: bool

    function State(): CardState
      reads this
    {
      CardState(columnId, columnName, title, contato, placa, anoModelo, modelo, subtitle,
                data, status, sortOrder, hasRef, hidden, rect, isLocked, isRenderedAndVisible, invalidated)
    }

    constructor (id: string, columnId: string, columnName: string, title: string,
                 contato: string, placa: string, anoModelo: string, modelo: string,
                 subtitle: string, data: string, status: string, sortOrder: int)
      ensures this.id == id && this.columnId == columnId && this.columnName == columnName
      ensures this.title == title && this.contato == contato && this.placa == placa
      ensures this.anoModelo == anoModelo && this.modelo == modelo && this.subtitle == subtitle
      ensures this.data == data && this.status == status && this.sortOrder == sortOrder
      ensures !hasRef && !hidden && rect == None && !isLocked
      ensures !isRenderedAndVisible && !invalidated
    {
      this.id := id;
      this.columnId := columnId;
      this.columnName := columnName;
      this.title := title;
      this.contato := contato;
      this.placa := placa;
      this.anoModelo := anoModelo;
      this.modelo := modelo;
      this.subtitle := subtitle;
      this.data := data;
      this.status := status;
      this.sortOrder := sortOrder;
      hasRef := false;
      hidden := false;
      rect := None;
      isLocked := false;
      isRenderedAndVisible := false;
      invalidated := false;
    }

    /** Attaches (`present`) or detaches the native view. */
    method SetRef(present: bool)
      modifies this`hasRef
      ensures hasRef == present
    {
      hasRef := present;
    }

    /** Without a view the rectangle is forgotten at once; with one, a native
        measurement is requested and its result arrives later through
        `MeasureCallback`. Returns whether a measurement was requested. */
    method ValidateAndMeasure() returns (requested: bool)
      modifies this`rect
      ensures requested == hasRef
      ensures !hasRef ==> rect == None
      ensures hasRef ==> rect == old(rect)
    {
      if !hasRef {
        rect := None;
        return false;
      }
      requested := true;
    }

    /** The callback handed to the native `measure`: the frame-relative `x` and
        `y` are ignored, the page position and size become the rectangle, the
        visibility flag follows `NextVisibility`, and the card is valid again. */
    method MeasureCallback(x: int, y: int, width: int, height: int, pageX: int, pageY: int)
      modifies this`rect, this`isRenderedAndVisible, this`invalidated
      ensures rect == Some(Rect(pageX, pageY, width, height))
      ensures isRenderedAndVisible == NextVisibility(old(isRenderedAndVisible), rect.value)
      ensures !invalidated
    {
      rect := Some(Rect(pageX, pageY, width, height));
      var r := rect.value;
      if !isRenderedAndVisible && r.x != 0 && r.y != 0 && r.width != 0 && r.height != 0 {
        SetIsRenderedAndVisible(true);
      } else if isRenderedAndVisible && r.x == 0 && r.y == 0 && r.width == 0 && r.height == 0 {
        SetIsRenderedAndVisible(false);
      }
      invalidated := false;
    }

    method SetDimensions(dimensions: Option<Rect>)
      modifies this`rect
      ensures rect == dimensions
    {
      rect := dimensions;
    }

    method SetIsRenderedAndVisible(visible: bool)
      modifies this`isRenderedAndVisible
      ensures isRenderedAndVisible == visible
    {
      isRenderedAndVisible := visible;
    }

    method Hide()
      modifies this`hidden
      ensures hidden
    {
      hidden := true;
    }

    method Show()
      modifies this`hidden
      ensures !hidden
    {
      hidden := false;
    }

    method Invalidate()
      modifies this`invalidated
      ensures invalidated
    {
      invalidated := true;
    }
  }
}
