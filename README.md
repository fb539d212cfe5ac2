# railway_ballast: a verified model of the settlement pipeline

The railway_ballast scripts turn the permanent strain of the ballast under a
railway embankment into nodal settlements. A finite-element stress analysis
gives a static stress (step 'gravity') and a loading stress (step 'loading')
at every integration point. A cyclic material model turns the two into a
permanent strain per cycle count. That strain field is pushed back to nodal
displacements by a least-squares fit of the strain-displacement relation of
8-node hexahedra (C3D8), with the boundary-condition DOFs prescribed. Around
this sit the readers of the triaxial test files the material model is
calibrated against, the description of the embankment simulations, the path
along which the models are compared, and a box filter for node sets.

This Dafny project models that core. Most of it is index bookkeeping and
exact linear algebra over the reals:
- the DOF numbering `3 (L - 1) + c - 1` and its reduced-index variant;
- the sorted, duplicate-free prescribed DOFs and their last-wins values;
- the layout of the strain-displacement triplets and the merge of element blocks;
- the prescribed/free column split and the scatter of the free solution;
- the interleaving of nodal and strain vectors;
- the C3D8 tables and the structure of its 6x24 operator;
- the block-of-8 node flip and the defaulting rules of the result-file reader and writer;
- the chunking of the material-model jobs and their write-back;
- the volumetric/deviatoric split and the parameter selection of the material model;
- the file-name pattern and the filters of the experiment readers;
- the precedence of `track_lower_height`.

Code that fills arrays or updates objects step by step is modelled as
methods over arrays, or as classes with `modifies` clauses. Examples are
`DeformationCalculator`, the strain-line loop, the scatter loop,
`flip_node_order`, `MaterialModel` and `ExperimentalResults`. Each method is
proved against a specification function, and the properties are lemmas
about those functions. The result database, the pickles, the subprocesses
and the floating-point kernels (the least-squares solver, norms, the
Jacobian solve and determinant, the ODE integrator, `sqrt`, `exp`, `interp`)
enter as parameters. The exceptions the modelled code raises are `Result`
values that carry the exception's name; the ones it can meet only inside a
parameter, or on a path listed under "## Left out", are not modelled.

One Dafny module corresponds to each source file:
- `Common` holds the shared vocabulary;
- `SparseMatrix` models the coordinate-form matrices;
- `BoundaryConditions` holds the DOF registry shared by four scripts.

## Model

| member | source | states |
|---|---|---|
| Common.Unique | python/abaqus_functions/write_data_for_def_calculation.py:42 | np.unique: the result is strictly increasing and holds exactly the values of the input |
| Common.UniqueIsCanonical | python/permanent_deformations.py:61 | any strictly increasing sequence with the same elements as the input is np.unique of the input, so the DOF list is determined by its set |
| Common.SortedByElements | python/permanent_deformations.py:61 | two strictly increasing sequences with the same elements are equal |
| Common.IndicesWhere | python/deformation_calculator.py:77-79 | np.where(np.in1d(arange(n), dofs)) (or its negation): strictly increasing, and i is in it iff i < n and its membership in dofs is the one asked for |
| Common.ColumnPartition | python/deformation_calculator.py:77-79 | bc_cols and cols_to_keep are disjoint, cover 0..n-1 and their lengths add up to n |
| Common.PartitionCounts | python/permanent_deformations.py:106-108 | the lengths of the two column lists add up to the number of nodal entries |
| Common.PrescribedColumnsAreDofs | python/deformation_calculator.py:78 | when the DOFs are sorted, distinct and inside the nodal vector, bc_cols is the DOF list itself, so bc_vals lines up with bc_cols |
| Common.Where | python/abaqus_functions/write_data_for_def_calculation.py:62 | np.where(labels == x)[0]: strictly increasing, and k is in it iff labels[k] == x |
| Common.WhereInSorted | python/abaqus_functions/write_data_for_def_calculation.py:62-68 | in a sorted label list np.where gives [] for a missing label and the single position of a present one |
| Common.AllOkShape | python/abaqus_functions/write_data_for_def_calculation.py:82-90 | a sequence of results succeeds iff every entry does, with the values in order, and otherwise fails with the first error |
| Common.AllOkErrorPersists | python/abaqus_functions/write_data_for_def_calculation.py:82-90 | once a prefix has failed, later entries do not change the outcome |
| Common.PySlice | python/write_permanent_deformations_to_odb.py:72 | Python slicing s[lo:hi] with clamped bounds: the plain subsequence when the bounds are in range, never longer than s |
| Common.NumpyPosition | python/deformation_calculator.py:55 | a numpy index is valid iff -n <= i < n, and then names a position below n |
| Common.FancyAssign | python/permanent_deformations.py:65 | a[idx] = v: IndexError iff some index is out of range; otherwise the length is kept, untouched positions keep their values and the last write to a position wins |
| Common.SortedFancyAssign | python/deformation_calculator.py:55 | with sorted in-range DOFs, nodal[bc_dofs] = bc_vals succeeds, puts every value at its DOF and leaves every other entry alone |
| Common.Lower | python/abaqus_functions/write_stress_state_pickles.py:16 | str.lower on ASCII: same length, each character mapped on its own |
| Common.NatToString | python/calculate_permanent_deformations.py:83 | str(n) for a natural number: a non-empty string of decimal digits |
| Common.DigitsOfNatToString | python/calculate_permanent_deformations.py:83 | reading back the digits of str(n) gives n |
| Common.NatToStringInjective | python/calculate_permanent_deformations.py:83 | different cycle counts give different step names |
| Common.FlattenLength | python/deformation_calculator.py:96 | flattening n rows of k values gives k * n values |
| Common.FlattenAt | python/deformation_calculator.py:96 | entry (i, j) of the matrix is entry k * i + j of its flattening |
| Common.Rows | python/deformation_calculator.py:103-104 | reshape((n, k)): n rows of k values each |
| Common.RowsAt | python/deformation_calculator.py:103-104 | row i, entry j of the reshape is entry k * i + j of the flat vector |
| Common.RowsOfFlatten | python/deformation_calculator.py:103-104 | reshaping a flattened matrix gives the matrix back |
| Common.FlattenOfRows | python/deformation_calculator.py:103-104 | flattening a reshaped vector gives the vector back |
| Common.SumAppend | python/finite_element_model/simulations.py:41-48 | the sum of a concatenation is the sum of the sums |
| Elements.LocalNodalPosIsTheCube | python/FEM_functions/elements.py:10-17 | local_nodal_pos lists the eight distinct corners of the cube [-1, 1]^3, bottom face (zeta = -1) first |
| Elements.GaussCoordinate | python/FEM_functions/elements.py:20-23 | every Gauss coordinate is +s or -s for s = 1/sqrt(3) |
| Elements.GaussPointTable | python/FEM_functions/elements.py:18-24 | the triple loop fills an 8x3 table whose row counter = 4i + 2j + k holds (k, j, i) * s |
| Elements.DerivativeRow | python/FEM_functions/elements.py:41-48 | one row of the shape-function derivative matrix, 8 entries |
| Elements.DerivativeRowsSumToZero | python/FEM_functions/elements.py:41-48 | every row of d sums to zero over the eight nodes (the shape functions form a partition of unity) |
| Elements.DotShift | python/FEM_functions/elements.py:51-52 | shifting every coordinate by t adds t times the row sum to a product with a row of d |
| Elements.JacobianOf | python/FEM_functions/elements.py:51-52 | J = d . xe is a 3x3 matrix |
| Elements.JacobianTranslationInvariant | python/FEM_functions/elements.py:51-52 | translating the element leaves the Jacobian unchanged at every point |
| Elements.AveragedDerivative | python/FEM_functions/elements.py:59-61 | dx_avg of a node has three components: the determinant-weighted sum over the Gauss points divided by the volume |
| Elements.AverageOfConstantDerivative | python/FEM_functions/elements.py:59-61 | when a node's derivative is the same at every Gauss point, its volume average is that value |
| Elements.NormalRowsSumToAverage | python/FEM_functions/elements.py:63-73 | the three normal rows of a column add up to the averaged derivative: the volumetric part of the strain is the averaged one |
| Elements.BlendReducesToStandard | python/FEM_functions/elements.py:63-73 | with the average equal to the point value the normal rows are the standard operator: dx on the diagonal, zero off it |
| Elements.ShearRowLayout | python/FEM_functions/elements.py:75-82 | rows 3, 4, 5 hold the xy, xz and yz shear derivatives of node i and zero in the third column |
| Elements.OperatorColumnsAreLocal | python/FEM_functions/elements.py:58-82 | columns 3i..3i+2 of B depend only on node i's derivatives |
| Elements.OperatorDirectionSums | python/FEM_functions/elements.py:63-82 | the sum of a row of B over one direction is the same blend of the nodal sums of dx and dx_avg |
| Elements.RigidTranslationIsStrainFree | python/FEM_functions/elements.py:54-83 | with dx solved at the point from d and dx_avg the determinant-weighted average of the solved derivatives over the eight Gauss points, every row of B maps a uniform translation of the nodes to zero strain; the nodal sums vanish because each row of d sums to zero, whatever the Jacobians |
| Elements.BalancedOperatorIgnoresTranslation | python/FEM_functions/elements.py:63-82 | when dx and dx_avg each sum to zero over the nodes, every row of B times a uniform translation is zero |
| Elements.SolvedDerivativesBalance | python/FEM_functions/elements.py:67 | solving with any 3x3 matrix a d whose rows sum to zero gives derivatives that sum to zero over the nodes |
| Elements.WeightedSumsCancel | python/FEM_functions/elements.py:59-61 | a weighted sum over the Gauss points of nodal values that sum to zero at each point sums to zero over the nodes |
| Elements.AveragedDerivativesBalance | python/FEM_functions/elements.py:59-61 | the volume-weighted Gauss average of the solved derivatives sums to zero over the nodes |
| Elements.ConstructionError | python/FEM_functions/elements.py:26-30 | C3D8(nodes) succeeds iff there are 8 nodes (or 1, which broadcasts) with three coordinates each; a wrong count with every node having a coordinate is ValueError; the error is always ValueError or IndexError |
| Elements.C3D8.constructor | python/FEM_functions/elements.py:26-30 | for a node list C3D8 accepts, row n of xe holds node n's coordinates (a single node fills all eight rows) and node_labels the labels in node order |
| Elements.C3D8.Build | python/FEM_functions/elements.py:26-30 | C3D8(nodes) raises exactly the error ConstructionError names; otherwise it is the object the constructor describes |
| Elements.C3D8.D | python/FEM_functions/elements.py:32-49 | the 3x8 matrix d holds the trilinear derivative formula at every entry |
| Elements.C3D8.Coordinates | python/FEM_functions/elements.py:27-29 | xe read back as eight rows of three coordinates |
| Elements.C3D8.B | python/FEM_functions/elements.py:54-83 | the 6x24 matrix holds the blended operator entry at every position |
| Elements.AddAveragedShare | python/FEM_functions/elements.py:63-65 | adds dx_avg[k]/3 to the three normal rows of node i's columns and nothing else |
| Elements.AddPointShare | python/FEM_functions/elements.py:67-82 | adds node i's point share (2/3 and -1/3 in the normal rows, the shears below) to its columns and nothing else |
| SparseMatrix.MakeCoo | python/deformation_calculator.py:74-75 | coo_matrix((values, (row, col)), shape): ValueError iff the lists differ in length or an index lies outside the shape |
| SparseMatrix.MatVec | python/deformation_calculator.py:102 | B * x has one entry per row |
| SparseMatrix.Add | python/deformation_calculator.py:98 | entrywise sum |
| SparseMatrix.Subtract | python/deformation_calculator.py:98 | entrywise difference |
| SparseMatrix.Multiply | python/deformation_calculator.py:96 | entrywise product |
| SparseMatrix.Divide | python/deformation_calculator.py:100 | entrywise quotient |
| SparseMatrix.RowSumLinear | python/deformation_calculator.py:98 | a row of B times x + z is the row times x plus the row times z |
| SparseMatrix.MatVecLinear | python/deformation_calculator.py:98 | B (x + z) = B x + B z |
| SparseMatrix.ScaleRows | python/deformation_calculator.py:81-82 | diags(w) * B keeps the shape and stays well formed |
| SparseMatrix.RowSumScaleRows | python/deformation_calculator.py:81-82 | row r of diags(w) * B times x is w[r] times row r of B times x |
| SparseMatrix.MatVecScaleRows | python/deformation_calculator.py:81-82 | (diags(w) B) x = w * (B x) |
| SparseMatrix.ScaleColumns | python/deformation_calculator.py:86-88 | B * diags(1/s) keeps the shape and stays well formed |
| SparseMatrix.RowSumScaleColumns | python/deformation_calculator.py:86-88 | a row of B * diags(1/s) times y is the row of B times y / s |
| SparseMatrix.MatVecScaleColumns | python/deformation_calculator.py:86-88 | (B diags(1/s)) y = B (y / s): solving the scaled system and dividing by the scale factors solves the unscaled one |
| SparseMatrix.IndexOf | python/deformation_calculator.py:83 | the first position of x in s |
| SparseMatrix.SelectColumns | python/deformation_calculator.py:83 | B[:, cols] has the rows of B and one column per selected column |
| SparseMatrix.Gather | python/deformation_calculator.py:98 | x[cols]: entry k is x[cols[k]] |
| SparseMatrix.Spread | python/deformation_calculator.py:101 | the values put back at their columns in a vector of zeros of length n |
| SparseMatrix.SelectColumnsTimes | python/deformation_calculator.py:83 | B[:, cols] v = B (v spread onto cols) |
| SparseMatrix.SpreadPartition | python/deformation_calculator.py:77-79 | a nodal vector is its prescribed part plus its free part |
| SparseMatrix.ColumnSplit | python/deformation_calculator.py:98 | B x = B[:, bc_cols] x[bc_cols] + B[:, cols_to_keep] x[cols_to_keep] |
| DeformationCalculation.DofSlotLayout | python/deformation_calculator.py:117-120 | local DOF slot 3k + c of an element is global DOF 3 * label_k + c |
| DeformationCalculation.DisplacementComponents | python/deformation_calculator.py:117-120 | the 24 global DOFs of the element's nodes, in slot order |
| DeformationCalculation.ElementTriplets | python/deformation_calculator.py:108-131 | an element's data is 1152 triplets and 48 Gauss point weights |
| DeformationCalculation.ElementTripletLayout | python/deformation_calculator.py:121-128 | triplet 24 (6g + comp) + 3k + c has column 3 * label_k + c, row 6g + comp + 48 idx and value B_g[comp][3k + c] |
| DeformationCalculation.ElementRowBlock | python/deformation_calculator.py:126 | element idx only writes rows 48 idx .. 48 idx + 47, so the elements' row blocks are disjoint |
| DeformationCalculation.GaussPointVolumeLayout | python/deformation_calculator.py:130 | each Gauss point's volume fills its six strain lines |
| DeformationCalculation.FillStrainLine | python/deformation_calculator.py:124-128 | writing one strain line extends the filled prefix of the three arrays by one line of the element's triplets |
| DeformationCalculation.CalculateElementData | python/deformation_calculator.py:108-131 | calculate_element_data computes exactly the element's triplets and weights |
| DeformationCalculation.MergedBlocks | python/deformation_calculator.py:56-73 | the merged arrays have the sizes b_components and strain_components |
| DeformationCalculation.MergedBlockLayout | python/deformation_calculator.py:67-73 | element i's triplets land at 1152 i + t and its weights at 48 i + s |
| DeformationCalculation.CopyBlock | python/deformation_calculator.py:68-73 | copying element i's block extends the merged prefix by that block |
| DeformationCalculation.MergeElementData | python/deformation_calculator.py:56-73 | ValueError iff the preallocated arrays are too short for the blocks; otherwise the merged layout |
| DeformationCalculation.BoundaryValues | python/deformation_calculator.py:51-53 | bc_vals[i] is the dictionary value of bc_dofs[i], or 0 when it has none |
| DeformationCalculation.AssembledOperatorWellFormed | python/deformation_calculator.py:74-75 | when node labels address the nodal vector, every merged row and column lies inside the operator's shape |
| DeformationCalculation.PartitionInRange | python/deformation_calculator.py:77-79 | both column lists index the nodal vector |
| DeformationCalculation.ReducedResidual | python/deformation_calculator.py:98-102 | with the prescribed entries at their values and the free ones at y / s, the full residual equals the reduced scaled residual at y |
| DeformationCalculation.DeformationCalculator.constructor | python/deformation_calculator.py:44-89 | stores the data, sets up the partition and the scaled reduced operator, and writes the prescribed values into the nodal vector |
| DeformationCalculation.DeformationCalculator.ReducedRhs | python/deformation_calculator.py:98 | the right-hand side of the reduced problem has one entry per strain line |
| DeformationCalculation.DeformationCalculator.WriteFree | python/deformation_calculator.py:101 | the free entries take the solved values and the prescribed entries keep theirs |
| DeformationCalculation.DeformationCalculator.CalculateDeformations | python/deformation_calculator.py:92-105 | succeeds iff the strain matches the weights, lsqr returns one value per free column and both reshapes divide evenly, every failure being ValueError; then the free entries are the lsqr solution divided by the scale factors, prescribed entries are unchanged, and the error is the weighted residual of the full system, equal to that of the reduced system, reshaped per element |
| DeformationCalculation.NewDeformationCalculator | python/deformation_calculator.py:44-89 | succeeds iff every DOF lies in the nodal vector and the merged triplets fit the operator's shape (always so when the node labels address the nodal vector), IndexError for an out-of-range DOF; the operator is diags(volumes) times the coordinate matrix of the merged triplets, with 48 rows per element and the merged Gauss point volumes; the sorted DOFs carry the dictionary's values (0 by default) and the other nodal entries are kept |
| BoundaryConditions.FirstOrNamed | python/permanent_deformations.py:37-40 | instances[keys()[0]] without a name (IndexError when there are none) or instances[name] (KeyError for an unknown name) |
| BoundaryConditions.LabelDofDecodes | python/permanent_deformations.py:54-55 | DOF 3 (L - 1) + c - 1 decodes back to node L - 1 and component c - 1 |
| BoundaryConditions.LabelDofInjective | python/permanent_deformations.py:54-55 | different (node, component) pairs never share a DOF |
| BoundaryConditions.RuleDofsMembership | python/permanent_deformations.py:53-55 | a DOF comes from a set iff some node of the set maps to it |
| BoundaryConditions.RecordValuesOverlay | python/permanent_deformations.py:56-59 | recording a condition's values overlays the dictionary with the last value of each addressed DOF and leaves the other entries alone |
| BoundaryConditions.LastValueFront | python/permanent_deformations.py:56-59 | the last value of a list is that of its tail, else that of its head |
| BoundaryConditions.CollectDofs | python/permanent_deformations.py:44-59 | the loop over the conditions computes the DOF list and value dictionary of the reference definition |
| BoundaryConditions.AppendRuleDofs | python/permanent_deformations.py:53-55 | appends the DOFs of one set's nodes, in node order |
| BoundaryConditions.RuleDofsStep | python/permanent_deformations.py:53-55 | one more node appends its DOF, if its rule gives one |
| BoundaryConditions.RecordItems | python/permanent_deformations.py:56-59 | the loop over a condition's values computes the recorded dictionary |
| BoundaryConditions.CollectErrorPersists | python/permanent_deformations.py:44-51 | once a condition has raised, the later conditions change nothing |
| BoundaryConditions.CollectOkIff | python/permanent_deformations.py:44-51 | the loop succeeds iff every condition's set can be looked up |
| BoundaryConditions.CollectFirstFailure | python/permanent_deformations.py:44-51 | the exception raised is that of the first failing lookup |
| BoundaryConditions.CollectErrorKinds | python/permanent_deformations.py:47-51 | the only exceptions are the KeyError of an unknown set and the ValueError of an unknown type |
| BoundaryConditions.UnknownTypeRaisesValueError | python/permanent_deformations.py:50-51 | a condition whose type is neither 'surface' nor 'node_set' raises ValueError when the ones before it succeed |
| BoundaryConditions.CollectMembership | python/permanent_deformations.py:44-55 | a DOF is collected iff some node of some condition's set maps to it |
| BoundaryConditions.LabelDofsMembership | python/abaqus_functions/write_permanent_strain_pickle.py:50-59 | by label, every node of every set contributes 3 (L - 1) + c - 1, with no filtering |
| BoundaryConditions.ExplicitValuesLastWins | python/permanent_deformations.py:56-59 | the dictionary holds exactly the DOFs with an explicit value, each with the value of the last condition and item that set it |
| BoundaryConditions.LastValueDefined | python/permanent_deformations.py:57-59 | a list gives a DOF a value iff some item addresses it |
| BoundaryConditions.ExplicitValueDefined | python/permanent_deformations.py:56-59 | a DOF has an explicit value iff some item of some condition addresses it |
| BoundaryConditions.ConnectivityNodes | python/permanent_deformations.py:68 | [instance.nodes[n - 1] for n in connectivity]: IndexError iff some index is out of range, otherwise the nodes in order |
| BoundaryConditions.BuildElementMap | python/permanent_deformations.py:66-69 | fails, with IndexError or ValueError, iff some element label's element or nodes are missing or C3D8 rejects its nodes; otherwise a map keyed by exactly the distinct element labels, each to its element's nodes; on failure its exception is that of the first label, in sorted order, whose element does not build (FirstBuildError) |
| BoundaryConditions.FirstBuildError | python/permanent_deformations.py:66-69 | none iff every label's element builds; otherwise IndexError or ValueError, the first failing label's exception |
| PermanentDeformations.ElementAt | python/permanent_deformations.py:77 | the element of every strain point's label is in the element map and is an 8-node hexahedron |
| PermanentDeformations.StrainLinesSpec | python/permanent_deformations.py:70-89 | the four arrays hold 144 triplets and 6 strain values per strain point |
| PermanentDeformations.FlattenedStrainLayout | python/permanent_deformations.py:76-85 | ep[48 i + 6 j + c] == strain[8 i + j][c] for every complete element i |
| PermanentDeformations.TripletLayout | python/permanent_deformations.py:78-89 | triplet 24 l + 3 k + c of strain line l = 48 i + 6 j + comp has row l, column 3 (L_k - 1) + c and value B_j[comp][3 k + c] |
| PermanentDeformations.ElementDofs | python/permanent_deformations.py:78-81 | displacement_comp of an element has 24 entries |
| PermanentDeformations.LineOfSpec | python/permanent_deformations.py:84-89 | the 24 triplets of a strain line carry its row number, the element's DOFs in slot order and row comp of B |
| PermanentDeformations.WriteStrain | python/permanent_deformations.py:85 | writing one strain value extends the filled prefix of ep by one |
| PermanentDeformations.WriteLine | python/permanent_deformations.py:86-88 | writing one strain line extends the filled prefix of row, col and values by one line |
| PermanentDeformations.AssembleStrainLines | python/permanent_deformations.py:70-89 | the nested loops with the running strain_line counter compute exactly the strain-line layout |
| PermanentDeformations.DisplacementComponents | python/permanent_deformations.py:78-81 | the loop writes the element's DOF list 3 (L_k - 1) + c |
| PermanentDeformations.EmitElement | python/permanent_deformations.py:77-89 | one element's 48 strain lines extend the filled prefixes by 48 |
| PermanentDeformations.EmitGaussPoint | python/permanent_deformations.py:82-89 | one Gauss point's 6 strain lines extend the filled prefixes by 6 |
| PermanentDeformations.EmitStrainLine | python/permanent_deformations.py:84-89 | one component writes its strain value and its 24 triplets |
| PermanentDeformations.FilledToEnd | python/permanent_deformations.py:76-89 | after the last complete element the arrays equal the layout, trailing entries of an incomplete block staying 0 |
| PermanentDeformations.Interleave | python/permanent_deformations.py:98-101 | u_fem[3 r + c] == u[r][c]: the flattened displacement field |
| PermanentDeformations.Deinterleave | python/permanent_deformations.py:102-105 | fem_strain[r][c] == fem_strain_vec[6 r + c] |
| PermanentDeformations.NodeLabels | python/permanent_deformations.py:68-69 | the labels of an element's nodes, in connectivity order |
| PermanentDeformations.ElementNodesOfHex | python/permanent_deformations.py:68-69 | with no single-node element, an element that C3D8 accepts has eight nodes |
| PermanentDeformations.HexElementsCover | python/permanent_deformations.py:66-69 | when every element resolves and C3D8 accepts it, the element map covers every strain point's label with an 8-node element |
| PermanentDeformations.BuildStrainSystem | python/permanent_deformations.py:30-110 | the instance lookup's and the BC loop's exceptions are passed on; after them the outcome is AssemblyOutcome's: IndexError when nodal[bc_dofs] = bc_vals fails, else the exception of the first element (in sorted label order) that does not build, else success exactly when coo_matrix accepts the triplets and u has one row per node, ValueError otherwise; on success the sorted distinct label DOFs with their last explicit value or 0, written into a zero vector of 3 * #nodes, the operator and ep of the strain loop, u_fem, fem_strain = B u_fem per point, and the column split |
| PermanentDeformations.AssembleStrainSystem | python/permanent_deformations.py:65-110 | from given prescribed DOFs and values: IndexError iff the fancy assignment fails, then the first failing element's own exception (FirstBuildError), then success iff the coordinate matrix is well formed and 3·len(u) is the DOF count, ValueError otherwise; on success the assembled system |
| PermanentDeformations.AssembleOperator | python/permanent_deformations.py:70-110 | once the nodal vector is written and every element builds: success iff the coordinate matrix of the strain loop's triplets is well formed and 3·len(u) is the DOF count, ValueError otherwise; on success the assembled system (AssembledSystem) with the given DOFs and values |
| PermanentDeformations.HexElementMap | python/permanent_deformations.py:66-69 | the C3D8 objects built from the element map are exactly HexElements: one per distinct element label, holding that element's node labels and its operator at the Gauss points |
| PermanentDeformations.FinishSystem | python/permanent_deformations.py:93-108 | success iff coo_matrix accepts the triplets and u_fem has the nodal vector's length, ValueError otherwise; on success the operator is those triplets, u_fem is u interleaved by component, the FEM strain is B·u_fem split into rows of six, and the column split is the prescribed DOFs and the rest |
| WriteDataForDefCalculation.ReducedDofAtPosition | python/abaqus_functions/write_data_for_def_calculation.py:61-64 | in the sorted label list a node's DOF is 3 k + c - 1 for its position k; a label not in the list adds none |
| WriteDataForDefCalculation.ReducedRuleDof | python/abaqus_functions/write_data_for_def_calculation.py:62-64 | the reduced rule maps a label to d iff d is 3 p + c - 1 for the label's position p |
| WriteDataForDefCalculation.ReducedDofsMembership | python/abaqus_functions/write_data_for_def_calculation.py:53-64 | the collected DOFs are 3 p + c - 1 for exactly the positions p whose label is in some condition's set |
| WriteDataForDefCalculation.TruthinessNeverBelowThree | python/abaqus_functions/write_data_for_def_calculation.py:66-70 | as written, no value item ever addresses a DOF below 3, because `if idx:` is false for position 0 |
| WriteDataForDefCalculation.TruthinessNoExplicitValueBelowThree | python/abaqus_functions/write_data_for_def_calculation.py:65-70 | as written, no condition gives DOFs 0, 1 or 2 an explicit value |
| WriteDataForDefCalculation.AsWrittenDropsFirstNode | python/abaqus_functions/write_data_for_def_calculation.py:65-70 | as written, the value dictionary never holds DOFs 0, 1, 2, whatever values are given for the first listed node |
| WriteDataForDefCalculation.AsWrittenCounterexample | python/abaqus_functions/write_data_for_def_calculation.py:60-70 | labels [5, 7] and node set {5} fixed in component 1 at 1.0: DOF 0 is prescribed, as written its value is lost, the intended rule records it |
| WriteDataForDefCalculation.IntendedRecordsEveryListedNode | python/abaqus_functions/write_data_for_def_calculation.py:65-70 | with the `len(idx)` test a DOF gets a value iff some condition gives one for the label at a position p with d = 3 p + c - 1, position 0 included |
| WriteDataForDefCalculation.KeyedByLookup | python/abaqus_functions/write_data_for_def_calculation.py:76-79 | the label dictionaries hold exactly the labels of the items, each mapped to an item with that label, the last such item winning |
| WriteDataForDefCalculation.IndexByLabel | python/abaqus_functions/write_data_for_def_calculation.py:76-79 | the loops build the label-keyed dictionary of the instance's elements and nodes |
| WriteDataForDefCalculation.RelabelledNode | python/abaqus_functions/write_data_for_def_calculation.py:88-89 | IndexError iff the label is not in the list; otherwise the node's position in the list as label, coordinates kept |
| WriteDataForDefCalculation.RelabelNodesShape | python/abaqus_functions/write_data_for_def_calculation.py:86-89 | an element's nodes relabel iff all are in the list, giving them in order, otherwise IndexError |
| WriteDataForDefCalculation.LookupNodes | python/abaqus_functions/write_data_for_def_calculation.py:85 | [instance_nodes[n] for n in connectivity]: KeyError iff some label is not a node of the instance |
| WriteDataForDefCalculation.RelabelSpecShape | python/abaqus_functions/write_data_for_def_calculation.py:82-90 | the elements relabel iff each does, giving one node list per label in order, otherwise the KeyError or IndexError of the first that fails |
| WriteDataForDefCalculation.RelabelledElementErrors | python/abaqus_functions/write_data_for_def_calculation.py:83-90 | an element fails only with KeyError, IndexError or C3D8's ValueError |
| WriteDataForDefCalculation.RelabelledElementNodes | python/abaqus_functions/write_data_for_def_calculation.py:82-90 | each relabelled node has the coordinates of the instance node its connectivity names and, as label, the position of that label in the list |
| WriteDataForDefCalculation.RelabelNodeList | python/abaqus_functions/write_data_for_def_calculation.py:86-89 | the loop over the element's nodes computes the relabelled list or the first IndexError |
| WriteDataForDefCalculation.RelabelElement | python/abaqus_functions/write_data_for_def_calculation.py:83-90 | one pass of the element loop: KeyError for a label missing from the element map or a node missing from the node map, IndexError for a node outside node_labels, the C3D8 construction error, otherwise the relabelled nodes |
| WriteDataForDefCalculation.RelabelElements | python/abaqus_functions/write_data_for_def_calculation.py:73-90 | the element loop yields, for the distinct element labels in sorted order, the relabelled node lists |
| WriteDataForDefCalculation.WriteDataForDefCalculation | python/abaqus_functions/write_data_for_def_calculation.py:41-95 | the errors of the instance lookup, the BC loop and the element loop (including C3D8's ValueError) in that order; otherwise the relabelled elements, the sorted distinct reduced DOFs, the value dictionary, a zero vector of 3 * #labels and the sorted distinct labels |
| WritePermanentStrainPickle.WritePermanentStrainPickle | python/abaqus_functions/write_permanent_strain_pickle.py:39-75 | the instance lookup's error is passed through; the BC loop's first error follows; otherwise the pickle holds the strain and element labels unchanged, one node list per distinct element label (the result fails iff some element's lookup fails or C3D8 rejects its nodes), the distinct DOFs 3 (L - 1) + c - 1, the last-wins values and 3 * #distinct element-nodal labels zeros |
| WritePermanentDeformationsToOdb.BallastInstances | python/write_permanent_deformations_to_odb.py:26-27 | the instance names kept are exactly those containing 'BALLAST', in their original order |
| WritePermanentDeformationsToOdb.ResultSteps | python/write_permanent_deformations_to_odb.py:28-29 | the steps kept are exactly those whose lower-case name is neither 'gravity' nor 'train', in order |
| WritePermanentDeformationsToOdb.NextBase | python/write_permanent_deformations_to_odb.py:46-49 | a surface or node set is looked up in the assembly (KeyError when absent); any other type keeps the previous base, NameError when there is none yet |
| WritePermanentDeformationsToOdb.ListIndex | python/write_permanent_deformations_to_odb.py:50 | list.index: succeeds iff the item is in the list, giving its first position; ValueError otherwise |
| WritePermanentDeformationsToOdb.CollectOdbBcDofs | python/write_permanent_deformations_to_odb.py:43-56 | the boundary-condition loop computes the reference fold over the conditions |
| WritePermanentDeformationsToOdb.AppendSetDofs | python/write_permanent_deformations_to_odb.py:53-55 | the inner loop appends 3 (L - 1) + c - 1 for each node of the set, in order |
| WritePermanentDeformationsToOdb.OdbBcErrorPersists | python/write_permanent_deformations_to_odb.py:44-55 | once a condition fails, the conditions after it change nothing |
| WritePermanentDeformationsToOdb.OdbBcErrors | python/write_permanent_deformations_to_odb.py:44-55 | the loop fails only with KeyError, NameError, ValueError or IndexError |
| WritePermanentDeformationsToOdb.OdbBcDofsMembership | python/write_permanent_deformations_to_odb.py:44-57 | with surfaces and node sets only, a DOF is prescribed iff it is 3 (L - 1) + c - 1 for a node L the instance has in some condition's set; `nodes` is the last condition's node list |
| WritePermanentDeformationsToOdb.FreeBelowCounts | python/write_permanent_deformations_to_odb.py:62-67 | the counter j on reaching DOF c is the number of free DOFs below c |
| WritePermanentDeformationsToOdb.ScatterFree | python/write_permanent_deformations_to_odb.py:62-67 | IndexError iff up_red is shorter than the number of free DOFs; otherwise up is up_red spread over the free DOFs in increasing order, prescribed DOFs 0 |
| WritePermanentDeformationsToOdb.FreeRank | python/write_permanent_deformations_to_odb.py:63-67 | the free DOF c receives up_red at its rank among the free DOFs |
| WritePermanentDeformationsToOdb.ScatterRoundTrip | python/write_permanent_deformations_to_odb.py:62-67 | gathering the free DOFs of the scattered vector gives up_red back; every prescribed DOF is 0 |
| WritePermanentDeformationsToOdb.RowValue | python/write_permanent_deformations_to_odb.py:72 | the slice up[3 (L - 1):3 L] assigned to a row of three: ValueError unless it has three entries |
| WritePermanentDeformationsToOdb.RowIsNodeDisplacement | python/write_permanent_deformations_to_odb.py:72 | for a label in 1..#nodes the row is that node's three displacement components |
| WritePermanentDeformationsToOdb.DeformationRows | python/write_permanent_deformations_to_odb.py:71-72 | succeeds iff the set's nodes fit in the field's rows and every slice has three entries; otherwise the first failing node's error; row i is node i's displacement, rows past the set stay 0; the result is FieldRows |
| WritePermanentDeformationsToOdb.FirstRowErrorNone | python/write_permanent_deformations_to_odb.py:71-72 | no node from i on fails iff all of them fit below m with a three-entry slice; a failure is IndexError or ValueError |
| WritePermanentDeformationsToOdb.FieldRows | python/write_permanent_deformations_to_odb.py:71-72 | the reference for the row loop: succeeds iff the nodes fit and every slice has three entries, failing only with IndexError or ValueError; row i is the i-th node's slice, later rows 0 |
| WritePermanentDeformationsToOdb.InstanceDeformation | python/write_permanent_deformations_to_odb.py:34-72 | one pass computes PassResult: the BC error passes through; otherwise up is up_red spread over the free DOFs of 3 * #nodes, and the field rows are the rows of the last set's nodes, the rest 0 |
| WritePermanentDeformationsToOdb.PassResult | python/write_permanent_deformations_to_odb.py:34-72 | the reference value of one pass fails only with the five errors the pass can raise, and on success has one row per node of the field |
| WritePermanentDeformationsToOdb.PassResultSpec | python/write_permanent_deformations_to_odb.py:34-72 | PassResult passes the BC error through; on success up is up_red spread over the DOFs the conditions leave free, the next base is theirs, and row i is the slice of up at the last set's i-th node, zeros past the set |
| WritePermanentDeformationsToOdb.PassOrderAt | python/write_permanent_deformations_to_odb.py:32-33 | the pass of step s and instance t comes at position s * #instances + t of the nested loops |
| WritePermanentDeformationsToOdb.WritePermanentDeformations | python/write_permanent_deformations_to_odb.py:19-78 | the script computes RunPasses over the passes in nested-loop order: it succeeds iff every pass does, with base carried from each pass to the next, and then each write holds the rows PassResult gives for its instance and that base; otherwise it fails with the first failing pass's error, one of five; on success one field write per result step and ballast instance in nested-loop order, each with as many rows as the instance's field has nodes |
| WritePermanentDeformationsToOdb.StepDeformations | python/write_permanent_deformations_to_odb.py:33-78 | the inner loop over the ballast instances extends a run by one step's passes exactly as RunPasses does |
| WritePermanentDeformationsToOdb.RunPassesShape | python/write_permanent_deformations_to_odb.py:32-78 | a successful run writes once per pass, labelled with the pass's step and instance, with one row per node of the instance's field |
| WritePermanentDeformationsToOdb.RunPassesErrorPersists | python/write_permanent_deformations_to_odb.py:32-78 | once a prefix of the passes fails, the whole run fails with the same error |
| WritePermanentDeformationsToOdb.RunPassesErrors | python/write_permanent_deformations_to_odb.py:32-78 | a run fails only with KeyError, ValueError, NameError, IndexError or AttributeError |
| WritePermanentDeformationsToOdb.PassOrderPrefix | python/write_permanent_deformations_to_odb.py:32-33 | the passes of the first s steps come first among all the passes |
| OdbIo.FlippedSwapsHalves | python/abaqus_functions/odb_io_functions.py:252-256 | inside every complete block of 8 rows, rows 0-3 and rows 4-7 trade places |
| OdbIo.FlippedKeepsTail | python/abaqus_functions/odb_io_functions.py:253 | rows after the last complete block of 8 are never touched |
| OdbIo.FlipInvolution | python/abaqus_functions/odb_io_functions.py:252-257 | flipping twice restores the original data |
| OdbIo.FlipNodeOrder | python/abaqus_functions/odb_io_functions.py:241-257 | for axis 'z' the array is flipped in place; for any other axis it is left as it was; the array returned is the one passed in |
| OdbIo.FieldTypeMatchesWidth | python/abaqus_functions/odb_io_functions.py:187-191 | the field type exists iff the column count (1 for 1-D data) is 1, 3 or 6, has that many components, and any other count is a KeyError |
| OdbIo.OneDimensionalIsOneColumn | python/abaqus_functions/odb_io_functions.py:189-191 | 1-D data is written as one column, a SCALAR field |
| OdbIo.DefaultFrameValue | python/abaqus_functions/odb_io_functions.py:193-197 | a given frame value is kept; otherwise the last frame's value + 1.0, or 0.0 for a step without frames |
| OdbIo.DefaultFrameValueIsPast | python/abaqus_functions/odb_io_functions.py:193-195 | the default value of a new frame lies past the last frame's value |
| OdbIo.FrameToWriteDecision | python/abaqus_functions/odb_io_functions.py:199-202 | a new frame, numbered len(frames) + 1, is made iff frame_number is None, the step has no frames or len(frames) <= frame_number; otherwise the existing frame frame_number names under Python indexing, IndexError below -len |
| OdbIo.WriteObjects | python/abaqus_functions/odb_io_functions.py:172-183 | TypeError iff the position is neither an element position nor NODAL; otherwise the named set's objects or the whole instance's, KeyError for a missing set |
| OdbIo.WriteObjectsKind | python/abaqus_functions/odb_io_functions.py:172-181 | element positions write element objects and NODAL node objects, and a named set exists |
| OdbIo.WriteInstance | python/abaqus_functions/odb_io_functions.py:167-170 | the empty name takes the first instance key (IndexError without instances), another name must be a key, and the default None is a KeyError |
| OdbIo.WriteFieldPlan | python/abaqus_functions/odb_io_functions.py:162-211 | a missing step is created and gets a new frame 1 valued 0.0 unless given; an existing frame gets the field only when it lacks it; the field type has as many components as the data has columns |
| OdbIo.ReadInstance | python/abaqus_functions/odb_io_functions.py:53-59 | the instance read is a key of the instance repository |
| OdbIo.ReadInstanceRule | python/abaqus_functions/odb_io_functions.py:53-59 | without a name the read succeeds iff there is exactly one instance, ValueError otherwise; a name resolves to itself or fails |
| OdbIo.ReadStep | python/abaqus_functions/odb_io_functions.py:79-80 | no step name means the last step (IndexError without steps); the step read is a key |
| OdbIo.ReadFrame | python/abaqus_functions/odb_io_functions.py:82-84 | the frame read is one the step has; a missing one is an IndexError |
| OdbIo.ReadFrameRule | python/abaqus_functions/odb_io_functions.py:82-84 | frame -1 is the last frame and exists iff the step has frames; a non-negative number is that frame when the step has enough |
| OdbIo.ReadRegionRule | python/abaqus_functions/odb_io_functions.py:60-77 | the set read exists or is the ALL_ELEMENTS / ALL_NODES set, created only for the empty name and only when missing; element positions read element sets |
| OdbIo.LabelKinds | python/abaqus_functions/odb_io_functions.py:113-118 | a data point adds a node label at NODAL and ELEMENT_NODAL, an element label at the other element positions, never both, and nothing at UNIQUE_NODAL |
| OdbIo.PackageRead | python/abaqus_functions/odb_io_functions.py:121-128 | the returned tuple holds the frame value iff get_frame_value and the label lists iff get_position_numbers, always with the data |
| OdbIo.ReadFieldDefaults | python/abaqus_functions/odb_io_functions.py:51-86 | with the defaults an ambiguous instance is a ValueError before any other check, and a read takes the last frame of the last step of the only instance |
| CreateEmptyOdb.FindKind | python/abaqus_functions/create_empty_odb.py:24 | the position of the group of an element type, or none iff no group has that type |
| CreateEmptyOdb.GroupsOfMeaning | python/abaqus_functions/create_empty_odb.py:19-27 | the groups have distinct types, one per type present, and each group's labels and connectivities are those of the elements of its type, in source order |
| CreateEmptyOdb.AbsentKindIsEmpty | python/abaqus_functions/create_empty_odb.py:22-27 | a type no element has contributes no labels and no connectivity |
| CreateEmptyOdb.CopyNodesAndElements | python/abaqus_functions/create_empty_odb.py:9-31 | addNodes is called iff there are nodes, with parallel labels and coordinates in source order; addElements once per group, the groups describing the elements by type |
| CreateEmptyOdb.InstancePart | python/abaqus_functions/create_empty_odb.py:65-72 | the existing part of the instance's name, else a part of the old part's type when the old file has one of that name, else a DEFORMABLE_BODY part |
| CreateEmptyOdb.PartTable | python/abaqus_functions/create_empty_odb.py:54-56 | the part table holds exactly the names of the copied parts |
| CreateEmptyOdb.PartTableAt | python/abaqus_functions/create_empty_odb.py:54-56 | with distinct names each copied part keeps its old type |
| CreateEmptyOdb.CopyParts | python/abaqus_functions/create_empty_odb.py:54-56 | the part loop gives every old part's name its old type and makes no other part |
| CreateEmptyOdb.AddInstanceParts | python/abaqus_functions/create_empty_odb.py:63-72 | per instance: an existing part is reused, otherwise a DEFORMABLE_BODY part of its name is made; the old-type fallback never fires once the old parts are copied |
| CreateEmptyOdb.CreateEmptyOdb | python/abaqus_functions/create_empty_odb.py:44-82 | the new file has the old parts with their types plus one part per instance name: an old part when one has that name, otherwise DEFORMABLE_BODY |
| CreateEmptyOdb.CommandLine | python/abaqus_functions/create_empty_odb.py:85-88 | at least two arguments are needed; the new file is argv[-2], the old file argv[-1] |
| CreateEmptyOdb.CommandLineTakesLastTwo | python/abaqus_functions/create_empty_odb.py:86-87 | whatever comes before them, the last two arguments name the new and the old file |
| CalculatePermanentDeformations.InKilo | python/calculate_permanent_deformations.py:57-60 | every stress component read is divided by 1e3 (Pa to kPa), the row count kept |
| CalculatePermanentDeformations.ScaleCommutesWithDifference | python/calculate_permanent_deformations.py:57-61 | the cyclic stress in kPa is (loading - static) / 1e3, whether scaled before or after the subtraction |
| CalculatePermanentDeformations.DoubledShear | python/calculate_permanent_deformations.py:32 | components 3..5 (the shear strains) are doubled, 0..2 kept |
| CalculatePermanentDeformations.CycleTimes | python/calculate_permanent_deformations.py:41 | the cycle counts as the model's real-valued times, in order |
| CalculatePermanentDeformations.DefaultConstants | python/calculate_permanent_deformations.py:28 | the per-point model exists iff there are at least six parameters, and at the default 5 Hz its frequency factor is 1 |
| CalculatePermanentDeformations.EvaluatePoints | python/calculate_permanent_strains.py:17-23 | IndexError iff there are points and the parameters are too short or the cyclic stress has fewer rows; otherwise, per cycle and point, the strain of a fresh model fed that point's stresses |
| CalculatePermanentDeformations.Expected | python/calculate_permanent_deformations.py:24-33 | the reference result, one history per point from its own fresh model, indexed [cycle][point], shear doubled or not |
| CalculatePermanentDeformations.EvaluatePermanentStrainForGp | python/calculate_permanent_deformations.py:24-33 | the same errors as the loop; otherwise every point's own strain history with the shear components doubled |
| CalculatePermanentDeformations.PointsIndependent | python/calculate_permanent_deformations.py:73-74 | a point's strain depends on its own stresses only: evaluating a slice gives the slice of the evaluation |
| CalculatePermanentDeformations.ChunkBounds | python/calculate_permanent_deformations.py:67-70 | thirteen bounds, from 0 to n, the first twelve i * (n // 12), never decreasing |
| CalculatePermanentDeformations.ChunkOf | python/calculate_permanent_deformations.py:67-70 | every point lies in some chunk i, between bounds i and i + 1 |
| CalculatePermanentDeformations.ChunkPartition | python/calculate_permanent_deformations.py:67-70 | the last chunk takes n // 12 + n % 12 points, for n < 12 all points fall in the last chunk, and each point lies in exactly one chunk |
| CalculatePermanentDeformations.Indices | python/calculate_permanent_deformations.py:69-70 | the index list built by the comprehension and the append are the chunk bounds |
| CalculatePermanentDeformations.RunJob | python/calculate_permanent_deformations.py:73-75 | the job of the points lo..hi returns, for each of them, the reference strain of that point |
| CalculatePermanentDeformations.RunJobs | python/calculate_permanent_deformations.py:71-76 | twelve results, result i holding exactly the reference strains of the points in chunk i (jobs run in order) |
| CalculatePermanentDeformations.Splice | python/calculate_permanent_deformations.py:78 | a chunk lands in rows lo..hi of every cycle, the other rows unchanged |
| CalculatePermanentDeformations.WriteBack | python/calculate_permanent_deformations.py:77-78 | writing the twelve results back gives the reference strains of all points, whatever the chunking |
| CalculatePermanentDeformations.StepName | python/calculate_permanent_deformations.py:83 | every step written is named 'cycles_' followed by the cycle count |
| CalculatePermanentDeformations.StepNamesDistinct | python/calculate_permanent_deformations.py:81-83 | different cycle counts are written to different steps |
| CalculatePermanentDeformations.StepNames | python/calculate_permanent_deformations.py:81-83 | one step name per cycle count, in order |
| CalculatePermanentDeformations.CalculatePermanentDeformations | python/calculate_permanent_deformations.py:36-97 | StopIteration without instances, KeyError without element sets, then the stress, model and cycle-count errors; on success the first instance, the first ballast set, the five supports, one step per cycle count, the calculator starting on the first, and the doubled-shear reference strains of every point |
| CalculatePermanentStrains.SetNameText | python/calculate_permanent_strains.py:56 | str() of the pickled set name: the name, or the text 'None' for a missing set |
| CalculatePermanentStrains.CalculatePermanentStrains | python/calculate_permanent_strains.py:52-92 | IndexError iff there are points and the parameters are too short or the cyclic pickle has fewer rows; otherwise the pickled instance and set name, the supports with BOTTOM_NODES, one step per cycle count and the undoubled reference strains in kPa are written, and building the calculator then raises IndexError without cycle counts and TypeError (the missing `abq`) with them; stated as if the module's imports resolved, which line 11 prevents |
| CalculatePermanentStrains.SameModelUndoubled | python/calculate_permanent_strains.py:17-23 | this driver's strains are those of calculate_permanent_deformations.py before the shear components are doubled, point by point |
| WriteStressStatePickles.FirstBallastSet | python/abaqus_functions/write_stress_state_pickles.py:15-17 | the position of the first set name containing 'ballast_elements' in lower case, or none iff no name does |
| WriteStressStatePickles.FindElementSet | python/abaqus_functions/write_stress_state_pickles.py:14-17 | the loop with break picks the first ballast set, else the last set name, else keeps None |
| WriteStressStatePickles.FirstMatchAt | python/abaqus_functions/write_stress_state_pickles.py:15-17 | a ballast set with no ballast set before it is the one picked |
| WriteStressStatePickles.Difference | python/abaqus_functions/write_stress_state_pickles.py:24 | the array subtraction fails with ValueError iff the row counts differ and neither is 1 |
| WriteStressStatePickles.CyclicIsLoadingLessStatic | python/abaqus_functions/write_stress_state_pickles.py:24 | with equal row counts the cyclic stress is loading less static, component by component, and static plus cyclic gives back loading |
| WriteStressStatePickles.WriteStressPickles | python/abaqus_functions/write_stress_state_pickles.py:9-32 | IndexError without instances, KeyError without sets, ValueError when the two stress fields do not subtract; it succeeds iff none of these holds, and then both pickles name the first instance and the same set, the first set whose lower-case name contains 'ballast_elements' or else the last set, and hold the static stress and the loading less static stress |
| WriteStressStatePickles.CommandLine | python/abaqus_functions/write_stress_state_pickles.py:35-36 | at least three arguments; the stress file, static pickle and cyclic pickle are the last three in that order |
| MaterialModel.Spherical | python/material_model/material_model.py:40 | c times the identity tensor [1, 1, 1, 0, 0, 0] |
| MaterialModel.VonMisesOfSpherical | python/material_model/material_model.py:12-14 | a purely spherical tensor has zero von Mises radicand |
| MaterialModel.Abs | python/material_model/material_model.py:19-25 | the absolute value: non-negative and x or -x |
| MaterialModel.ConstitutiveParameters | python/material_model/material_model.py:18-31 | the absolute values of parameters 0, 1, 2, 4, 5 and parameter 3 as is; the frequency factor 1 at 5 Hz, parameter 6, 7 or 8 at 10, 20, 40 Hz; KeyError iff six parameters are there and the frequency is none of the four, IndexError for a vector too short |
| MaterialModel.ConstantsSigns | python/material_model/material_model.py:19-25 | every constant but A2 is non-negative, A2 keeps its sign |
| MaterialModel.SupportedFrequencies | python/material_model/material_model.py:27-31 | a nine-parameter vector is accepted exactly at 5, 10, 20 and 40 Hz; at 5 Hz six parameters suffice |
| MaterialModel.DirectionTraceFree | python/material_model/material_model.py:40 | the flow direction nij is trace free and holds 1.5 times the cyclic shear over q |
| MaterialModel.RateArgument | python/material_model/material_model.py:43-47 | 1 + A1 p + A2 p^2, raised to 1e-6 when below |
| MaterialModel.Overstress | python/material_model/material_model.py:49-51 | fd q / g - hf, clamped below at 0 |
| MaterialModel.StrainRateNonNegative | python/material_model/material_model.py:43-54 | with sound kernels g is positive and the effective strain rate A f^gf is non-negative |
| MaterialModel.History | python/material_model/material_model.py:57-68 | one strain row per interval integrated so far |
| MaterialModel.HistoryChains | python/material_model/material_model.py:57-68 | row i integrates from the previous requested count (N = 1 for the first) to cycles[i], starting from row i - 1 (zero strain for the first) |
| MaterialModel.HistoryPrefix | python/material_model/material_model.py:57-68 | later cycle counts never change the earlier rows |
| MaterialModel.StrainHistory | python/material_model/material_model.py:35-69 | one strain row per requested cycle count |
| MaterialModel.Volumetric | python/material_model/material_model.py:77-79 | per row the sum of the three normal components |
| MaterialModel.DeviatoricSplit | python/material_model/material_model.py:81-84 | the deviatoric strain is trace free, keeps the shear components and with a third of the volumetric strain added back gives the strain |
| MaterialModel.Model.constructor | python/material_model/material_model.py:32-33 | a model holds its parameters and constants and no strain yet |
| MaterialModel.Model.Create | python/material_model/material_model.py:18-33 | MaterialModel(parameters, frequency) succeeds iff the constants can be read, with their error otherwise, giving a fresh model without strain |
| MaterialModel.Model.Update | python/material_model/material_model.py:35-69 | the strain becomes, and the call returns, the chained strain history of the requested cycle counts |
| MaterialModel.Model.VolumetricStrain | python/material_model/material_model.py:77-79 | TypeError iff no update has happened; otherwise the volumetric strain of the last update |
| MaterialModel.Model.DeviatoricStrain | python/material_model/material_model.py:81-84 | TypeError iff no update has happened (the strain is None); otherwise the deviatoric strain of the last update |
| PermanentStrains.DeviatorTraceFree | python/permanent_strains.py:42-45 | the deviator is trace free, its normal components are s_ii - tr/3 and its shear components those of the cyclic stress |
| PermanentStrains.DirectionTraceFree | python/permanent_strains.py:52-54 | the direction 1.5 s / q is trace free |
| PermanentStrains.Clamp | python/permanent_strains.py:63 | magnitudes above 1 become 1, others are kept |
| PermanentStrains.PointStrainAlongDirection | python/permanent_strains.py:63-65 | a non-negative magnitude gives each non-negative direction component a strain between 0 and that component |
| PermanentStrains.PointStrainTraceFree | python/permanent_strains.py:63-65 | the permanent strain of a point is trace free (purely deviatoric) |
| PermanentStrains.SetComponent | python/permanent_strains.py:45 | component i replaced, the others kept |
| PermanentStrains.SetColumn | python/permanent_strains.py:44-45 | column i of every row replaced by the column given, every other entry kept |
| PermanentStrains.Deviator | python/permanent_strains.py:43-45 | the column loop yields, row by row, the deviator of the cyclic stress |
| PermanentStrains.Direction | python/permanent_strains.py:52-54 | the column loop yields, row by row, 1.5 times the deviator over that row's von Mises stress |
| PermanentStrains.Scale | python/permanent_strains.py:52 | every component multiplied by the factor |
| PermanentStrains.Strain | python/permanent_strains.py:63-65 | the column loop yields, row by row, the clamped magnitude times the direction |
| PermanentStrains.BallastStrain | python/permanent_strains.py:39-65 | one strain row per integration point |
| PermanentStrains.BallastBranch | python/permanent_strains.py:40-65 | the ballast branch computes the reference strain of every point |
| PermanentStrains.AsWrittenCyclicIsZero | python/permanent_strains.py:34-40 | as written both reads are from step 'gravity', so the cyclic stress and its von Mises stress are zero at every point, and the direction divides by zero |
| PermanentStrains.CyclicStressRestoresLoading | python/permanent_strains.py:36-40 | with the second read from step 'loading', static plus cyclic stress gives back the loading stress at every point |
| PermanentStrains.InKilo | python/permanent_strains.py:35-37 | every stress divided by 1e3, the row count kept |
| PermanentStrains.InstanceWrite | python/permanent_strains.py:38-71 | the write goes to the instance's step '100000.0_cycles' with one row per point, all zero for an instance without 'BALLAST' in its name |
| PermanentStrains.BallastWrite | python/permanent_strains.py:39-65 | at a ballast point the strain is the clamped magnitude of the static pressure and the cyclic von Mises stress along 1.5 s / q, q being non-zero |
| PermanentStrains.InstanceStrain | python/permanent_strains.py:34-71 | the loop body computes the instance's reference write |
| PermanentStrains.PermanentStrains | python/permanent_strains.py:15-71 | one write per instance, in instance order, each the reference write of that instance |
| ExperimentalResults.DigitRunSpec | python/experimental_results.py:49 | a `(\d+)` group matches greedily: the run covers ASCII digits only and stops at the first non-digit or the end |
| ExperimentalResults.LiteralAtIsOccurs | python/experimental_results.py:49 | a literal piece of the pattern matches exactly where its text occurs |
| ExperimentalResults.MatchFromSound | python/experimental_results.py:49-54 | whatever the matcher returns fits the pattern, and the pattern rendered with it occurs at the position |
| ExperimentalResults.MatchFromComplete | python/experimental_results.py:49-54 | where the pattern rendered with fitting pieces occurs, the matcher finds exactly those pieces |
| ExperimentalResults.ToMatch | python/experimental_results.py:54-57 | the four pieces form a match iff there are three non-empty digit groups and one character |
| ExperimentalResults.MatchAtComplete | python/experimental_results.py:49-54 | every occurrence of 'axial_strain_p=<d>kPa_q=<d>kPa_f=<d>Hz<c>dat', the '.' taking any character but a newline, is the match found there |
| ExperimentalResults.MatchAtSound | python/experimental_results.py:49-54 | a match found is such an occurrence, and its text occurs there |
| ExperimentalResults.FirstMatchSpec | python/experimental_results.py:54 | re.search takes the first position with a match, and finds none iff there is none |
| ExperimentalResults.SearchSound | python/experimental_results.py:54 | what re.search finds is a match of the pattern with no match before it |
| ExperimentalResults.SearchComplete | python/experimental_results.py:54-55 | a file name holding an occurrence of the pattern is found, at that position or an earlier one |
| ExperimentalResults.LStripCountSpec | python/experimental_results.py:25 | str.lstrip removes leading characters of the set, up to the first one outside it |
| ExperimentalResults.DefaultVolumetricOfMatch | python/experimental_results.py:24-25 | for a matched file name the default volumetric file is 'volumetric_strain_' followed by the name after 'axial_strain_' |
| ExperimentalResults.LStripIsNotPrefixStrip | python/experimental_results.py:25 | lstrip strips a character set, not a prefix: 'axial_strain_tail.dat' gives 'volumetric_strain_.dat' |
| ExperimentalResults.NewExperiment | python/experimental_results.py:12-38 | an experiment keeps its conditions and axial file, uses the named volumetric file or the default one, and holds the resampled curves of the two files |
| ExperimentalResults.DeviatoricAxialStrain | python/experimental_results.py:40-42 | per point, the deviatoric axial strain plus a third of the volumetric strain is the axial strain |
| ExperimentalResults.Candidate | python/experimental_results.py:54-57 | a file name gives an experiment iff the pattern is found in it, built from the groups read as numbers and the matched text |
| ExperimentalResults.PresentSound | python/experimental_results.py:55-57 | every item appended comes from some match |
| ExperimentalResults.PresentComplete | python/experimental_results.py:55-57 | every match is appended |
| ExperimentalResults.ReadAllSound | python/experimental_results.py:53-57 | every experiment read comes from a file name that matches, with that match's conditions and text |
| ExperimentalResults.ReadAllComplete | python/experimental_results.py:53-57 | every matching file name contributes its experiment |
| ExperimentalResults.ReadAllConcat | python/experimental_results.py:53-57 | reading two lists of names reads the first, then the second |
| ExperimentalResults.Wrapped | python/experimental_results.py:64-69 | a number becomes a one-element list, a list is kept, None stays a wildcard |
| ExperimentalResults.NumberAdmitsItself | python/experimental_results.py:64-73 | a number filter admits exactly that value |
| ExperimentalResults.FilteredMembership | python/experimental_results.py:70-74 | an item is selected iff it is in the data and kept |
| ExperimentalResults.FilteredConcat | python/experimental_results.py:70-74 | selecting from two lists selects from each, in order |
| ExperimentalResults.SelectMembership | python/experimental_results.py:70-74 | an experiment is in the subset iff it is in the data and every filter admits its p, q and f |
| ExperimentalResults.SelectWithoutFilters | python/experimental_results.py:61-74 | with no filter every experiment is selected, in order |
| ExperimentalResults.ExperimentalResults.constructor | python/experimental_results.py:46-47 | the list of experiments starts empty |
| ExperimentalResults.ExperimentalResults.Read | python/experimental_results.py:49-58 | the experiments of the matching file names are appended to the list, in name order |
| ExperimentalResults.ExperimentalResults.ReadFile | python/experimental_results.py:54-57 | one pass of the loop: the experiment of the file name is appended iff re.search finds the pattern in it, which is one step of ReadAll |
| ExperimentalResults.ExperimentalResults.GetData | python/experimental_results.py:60-75 | the list itself iff no filter is given; otherwise a new list of the experiments all filters admit, in order |
| ExperimentalResults.RenderPattern | python/experimental_results.py:49 | the pattern rendered with three groups and a character is the file name 'axial_strain_p=<g1>kPa_q=<g2>kPa_f=<g3>Hz<c>dat' |
| ExperimentalResults.PatternSeparated | python/experimental_results.py:49 | every digit group of the pattern is followed by a literal that does not start with a digit |
| ExperimentalResults.PatternFits | python/experimental_results.py:49 | three digit runs and a character other than a newline fit the pattern's groups and '.' |
| ExperimentalResults.Candidates | python/experimental_results.py:53-57 | one candidate per file name, in order |
| ExperimentalResults.PresentConcat | python/experimental_results.py:55-57 | the appended items of two lists of candidates are those of the first, then the second |
| ExperimentalResults.ReadStep | python/experimental_results.py:53-57 | one more file name appends its experiment iff re.search finds the pattern in it |
| ExperimentalResults.FilteredEverything | python/experimental_results.py:70-74 | a filter that keeps everything gives back the data unchanged |
| ExperimentalResults.SelectConcat | python/experimental_results.py:70-74 | the subset of two lists of experiments is the subset of the first, then of the second |
| RawExperimentalResults.Reversed | experimental_results/experimental_results.py:18 | np.flipud: row i of the result is row n - 1 - i |
| RawExperimentalResults.ReversedTwice | experimental_results/experimental_results.py:17-18 | flipping twice gives the rows back |
| RawExperimentalResults.Column | experimental_results/experimental_results.py:19-20 | column k of every row, in order |
| RawExperimentalResults.NewExperiment | experimental_results/experimental_results.py:11-20 | IndexError unless the file holds a table; otherwise the conditions, and the cycles and strain as columns 0 and 1, read backwards iff the last cycle count is below the first |
| RawExperimentalResults.CyclesEndNotBelowStart | experimental_results/experimental_results.py:17-19 | after the flip the last cycle count is not below the first |
| RawExperimentalResults.Candidate | experimental_results/experimental_results.py:32-35 | nothing for a name without a match; otherwise the experiment of the match, or the error loading it raises |
| RawExperimentalResults.GatherUpToFailure | experimental_results/experimental_results.py:31-35 | the loop appends the experiments before the first failing file and reports that file's error, or none |
| RawExperimentalResults.GatherStops | experimental_results/experimental_results.py:31-35 | once a file has failed, the names after it change nothing |
| RawExperimentalResults.ReadAllUpToFailure | experimental_results/experimental_results.py:27-36 | the experiments read are those of the matching names before the first failure, whose error is reported |
| RawExperimentalResults.ReadAllWithoutFailure | experimental_results/experimental_results.py:27-36 | without a failure every matching name's experiment is read, in order |
| RawExperimentalResults.SelectMembership | experimental_results/experimental_results.py:46-50 | an experiment is selected iff it is in the data and every filter admits its p, q and f |
| RawExperimentalResults.SelectWithoutFilters | experimental_results/experimental_results.py:38-51 | without filters the subset is a copy of all the experiments |
| RawExperimentalResults.RawExperimentalResults.constructor | experimental_results/experimental_results.py:24-25 | the list of experiments starts empty |
| RawExperimentalResults.RawExperimentalResults.Read | experimental_results/experimental_results.py:27-36 | the experiments read are appended, and the first load failure is returned |
| RawExperimentalResults.RawExperimentalResults.GetData | experimental_results/experimental_results.py:38-51 | always a new list, of the experiments all filters admit, in order |
| RawExperimentalResults.Outcomes | experimental_results/experimental_results.py:31-35 | one outcome per file name, in order |
| RawExperimentalResults.GatherBeforeLast | experimental_results/experimental_results.py:31-35 | at the first failing file the loop has appended exactly the experiments of the names before it |
| Simulations.NewSimulation | python/finite_element_model/simulations.py:24-36 | a new simulation keeps its arguments, has the standard gauge 1.435 and neither a slab nor sleepers |
| Simulations.Heights | python/finite_element_model/simulations.py:42 | the heights of the layers, bottom first |
| Simulations.LayersHeightAppend | python/finite_element_model/simulations.py:42 | the height of a pile of layers is that of its lower part plus that of its upper part |
| Simulations.LayersHeightStep | python/finite_element_model/simulations.py:42 | one more layer on top adds its height |
| Simulations.TrackLowerHeightPrecedence | python/finite_element_model/simulations.py:41-48 | the bare layers' height, plus the sleepers' height with sleepers, plus the slab's with a slab, the slab winning over sleepers |
| Simulations.SlabWins | python/finite_element_model/simulations.py:43-46 | with a slab, sleepers change nothing and the track starts no lower than the layers end |
| Simulations.NonNegativeSum | python/finite_element_model/simulations.py:42 | layers of non-negative height pile up to a non-negative height |
| Simulations.SleeperAndSlabVariants | python/finite_element_model/simulations.py:81-87 | the copy taken before the sleepers are attached gets only the slab, the original only the sleepers; nothing else changes |
| Simulations.NamedVariants | python/finite_element_model/simulations.py:51-92 | the four names, their sleepers or slab, the standard gauge, and track bed heights 11.475, 11.8, 9.325 and 9.65 m |
| Simulations.NamedLayers | python/finite_element_model/simulations.py:54-79 | every named simulation stands on soil, clay and subgrade under two ballast layers |
| EmbankmentSimulations.BuildVariants | python/embankment_model/simulations.py:80-88 | simulation2 is copied after the sleepers are attached and only its load and name change; the slab variant is copied before and only gets '_slab' and the slab |
| EmbankmentSimulations.ModuleVariantsState | python/embankment_model/simulations.py:51-88 | the module-level simulations' sleepers, slab, loads, names, gauge and track bed heights 11.475, 11.475 and 11.8 m |
| ComparisonOfModels.FirstBallast | python/plotting_functions/comparison_of_models.py:6-9 | the position of the first layer whose lower-case name starts with 'ballast', or the number of layers when there is none |
| ComparisonOfModels.FirstBallastIsFirst | python/plotting_functions/comparison_of_models.py:6-9 | no layer below it is ballast |
| ComparisonOfModels.StopsAtFirstBallast | python/plotting_functions/comparison_of_models.py:6-9 | the scan stops at the first ballast layer or after the last layer |
| ComparisonOfModels.BallastStartHeight | python/plotting_functions/comparison_of_models.py:6-9 | the loop with break sums the heights of the layers below the first ballast layer (all of them without one) |
| ComparisonOfModels.BallastStartBelowTotal | python/plotting_functions/comparison_of_models.py:6-10 | the total height is the ballast start plus the height of the ballast and what lies on it |
| ComparisonOfModels.Linspace | python/plotting_functions/comparison_of_models.py:13 | num values, the first start and the last stop |
| ComparisonOfModels.LinspaceEvenlySpaced | python/plotting_functions/comparison_of_models.py:13 | consecutive values are (stop - start) / (num - 1) apart |
| ComparisonOfModels.PathEnds | python/plotting_functions/comparison_of_models.py:12-16 | the path starts at the top height and ends at the bottom height |
| ComparisonOfModels.FillPath | python/plotting_functions/comparison_of_models.py:12-16 | 1000 rows with x fixed, y running evenly from top to bottom and z 1e-3 |
| ComparisonOfModels.PathPoints | python/plotting_functions/comparison_of_models.py:6-16 | the path of a simulation at half its gauge, from 1 mm below the top of the layers to 1 mm above the ballast start |
| ComparisonOfModels.GetPathPointsForFemSimulation | python/plotting_functions/comparison_of_models.py:3-18 | KeyError iff the name is not one of the simulations; otherwise a fresh array holding that simulation's path |
| ComparisonOfModels.BallastOnThird | python/plotting_functions/comparison_of_models.py:6-9 | three layers whose names do not start with b under a lower-case 'ballast' layer: the ballast starts on top of the third, at the sum of their heights |
| ComparisonOfModels.BallastInitial | python/plotting_functions/comparison_of_models.py:7 | a ballast layer's name starts with b or B and has at least seven characters |
| ComparisonOfModels.LowercaseNameIsBallast | python/plotting_functions/comparison_of_models.py:7 | a lower-case name starting with 'ballast' counts as ballast |
| ComparisonOfModels.BallastOnSubgrade | python/plotting_functions/comparison_of_models.py:6-10 | on the named simulations' layers the ballast starts on the subgrade, 7 m up |
| ComparisonOfModels.PathOfNamedSimulations | python/plotting_functions/comparison_of_models.py:3-18 | on every named simulation the path runs at x = 0.7175 and ends 7.001 m up |
| AddNodeSet.CollectedIsInside | python/finite_element_model/add_node_set.py:12-16 | the loop succeeds iff every node has three coordinates (ValueError otherwise), and then gives the labels of the nodes strictly inside the box, in node order |
| AddNodeSet.InsideConcat | python/finite_element_model/add_node_set.py:12-16 | filtering a concatenation filters each part, in order |
| AddNodeSet.InsideMembership | python/finite_element_model/add_node_set.py:14-16 | a label is kept iff some node with that label satisfies all six strict inequalities |
| AddNodeSet.DefaultBoxKeepsAll | python/finite_element_model/add_node_set.py:6-7 | the default bounds of +-1e99 keep every node inside them, in node order |
| AddNodeSet.Labels | python/finite_element_model/add_node_set.py:16 | the labels of the nodes, in order |
| AddNodeSet.InstanceOf | python/finite_element_model/add_node_set.py:9-11 | without a name the first instance key (IndexError without instances); KeyError for a name the assembly lacks |
| AddNodeSet.CollectedStops | python/finite_element_model/add_node_set.py:13 | once a node fails to unpack, the nodes after it change nothing |
| AddNodeSet.AddNodeSetToOdb | python/finite_element_model/add_node_set.py:6-20 | the instance lookup's error, or ValueError iff a node lacks three coordinates, or the labels of the nodes strictly inside the box in node order |

## Left out

- Result-database, CAE and file I/O. This covers odbAccess, session and mdb, the pickles, subprocess and temporary directories. It also covers the bodies of read_field_from_odb and write_field_to_odb, get_nodal_coordinates_from_node_set and add_node_set of odb_io_functions.py, `_copy_sets` of create_empty_odb.py, and NodeSetFromNodeLabels, save and close of add_node_set.py. These are calls into a library outside the repository, so what they read is a parameter and what they write is returned.
- Floating-point numerics: `lsqr`, column `norm`, `np.linalg.solve` and `det`, `solve_ivp`, `sqrt`, `exp`, `pow` and `np.interp` are parameters of the members that use them. All other arithmetic is exact over the reals, so rounding and NaN are not modelled.
- Multiprocessing: the job fan-out of multi_processer is modelled as running the jobs in order, one after the other.
- Python 2 dictionary order: `keys()` of the result database (instances, steps, sets) and the `iteritems()` order of create_empty_odb.py:29 over the element types are given lists, since Python 2 does not fix that order. Python 2 integer division (`shape[0]/8`) is written as Dafny's division on naturals.
- np.genfromtxt: a file that does not parse, or parses into ragged rows or NaN, is not modelled. The loader maps a file name to rows of numbers.
- ExperimentalResults.NewExperiment: np.argsort, np.log, np.linspace, np.interp and np.exp, which resample the two curves onto common cycle counts, form one parameter. The experiment holds what that parameter returns.
- ExperimentalResults.ExperimentalResults.Read: only the default pattern is modelled; a caller-supplied `regex_str` is not. The '.' of the pattern is unescaped and matches any character but a newline, as in Python.
- ExperimentalResults.ExperimentalResults.GetData: which list object is returned is modelled by `Selection` (`TheDataList` or `NewList`). Later mutation through a shared reference is not modelled.
- Simulations and EmbankmentSimulations: deepcopy and attribute assignment are value updates, so sharing of the sleeper object between variants cannot arise. embankment_model/simulations.py defines the same classes and the same track_lower_height as finite_element_model/simulations.py; they are modelled once, in Simulations.
- ComparisonOfModels.PathOfNamedSimulations: stated on the x coordinate and the ballast-start height of the named simulations. The full path is stated generically by PathPoints.
- The module-level reads of sun_et_al_16 in the experiment readers and the `main` functions are left out, because they list directories and plot.
- CalculatePermanentStrains.CalculatePermanentStrains: assumes that the module's imports resolve. As written, python/calculate_permanent_strains.py:11 `from common import abq` fails when the module is imported, because python/common.py defines only `numpy` and `scipy` (and calls sys.exit() when python_modules.pkl is missing). Past that import, the model stops at line 89 with the TypeError that call raises, so the displacement loop after it is not modelled.
- python/permanent_deformations.py:111 indexes a one-dimensional array with two indices, so that path fails. The solve and scatter step is modelled from deformation_calculator.py instead, and PermanentDeformations stops at the column split of lines 106-108.
- DeformationCalculator reads the keys `b_components`, `strain_components` and `displacement_components`, which write_data_for_def_calculation.py never writes. It also uses `element.dofs`, `strains_components` and `gp_volume`, which C3D8 does not define. The model takes 24 DOFs, 48 strain lines and a weight function parameter.
- Elements.C3D8.constructor: requires a node list C3D8 accepts (ConstructionError is None). The exception of any other list is modelled by Elements.C3D8.Build and by the element lookups of the scripts that build elements.
- PermanentDeformations.BuildStrainSystem: takes its `strain`, `elementLabels` and `u` parameters to be whole-instance reads. The source reads them without `set_name` at python/permanent_deformations.py:33 and :95, so the default None reaches `set_dict[None]` at python/abaqus_functions/odb_io_functions.py:77, which raises KeyError (see OdbIo.ReadRegion); the function as written never gets past line 33. The model follows the reader's docstring here.

- PermanentDeformations.BuildStrainSystem: requires that no element has a single node. C3D8 broadcasts one node to all eight rows, so that element's Jacobian is singular and np.linalg.solve, a parameter here, raises inside B; that path is not modelled.
- WriteDataForDefCalculation.WriteDataForDefCalculation: collects the boundary values with the corrected rule of python/abaqus_functions/write_data_for_def_calculation.py:68 (`len(idx)`, the rule ByReducedIndex), not the written `if idx:` (ByReducedIndexTruthiness). What the written rule does is stated by the first row under "## Findings".
- PermanentStrains.PermanentStrains: its `StressReader` parameter answers the reads of python/permanent_strains.py:34 and :36 with whole-instance stresses. Those reads pass no `set_name`, so as written the default None reaches `set_dict[None]` at python/abaqus_functions/odb_io_functions.py:77 and raises KeyError at the first instance; the model follows the reader's docstring here, and the KeyError path is not modelled.

- PermanentStrains.PermanentStrains: takes the second stress read of python/permanent_strains.py:36-37 from step 'loading', the evidently intended step, not from 'gravity' as written. The written read is stated by the second row under "## Findings".
- PermanentStrains.InstanceStrain: uses the same corrected 'loading' read as PermanentStrains.PermanentStrains, and takes the same reads without `set_name` as whole-instance reads where the source raises KeyError.
- PermanentStrains.InstanceWrite: uses the same corrected 'loading' read as PermanentStrains.PermanentStrains.
- PermanentStrains.BallastWrite: uses the same corrected 'loading' read as PermanentStrains.PermanentStrains.
- DeformationCalculation.DeformationCalculator.CalculateDeformations: returns the displacement rows as a copy. In the source, reshape at python/deformation_calculator.py:103 returns a view that shares memory with nodal_displacements, and later writes through one would show in the other.
- ExperimentalResults.DigitRunSpec: `Common.IsDigit` accepts only the ASCII digits '0'..'9'. python/experimental_results.py is Python 3 code (it imports pathlib), where `\d` also matches the other Unicode decimal digits and `float()` accepts them; file names with such digits are not modelled.

- Common.Lower: maps only the ASCII letters, as Python 2's `str.lower` does on the byte strings of the result database. Unicode case mapping is not modelled.
- OdbIo.ReadRegion: follows the code, where the default set_name=None reaches `set_dict[None]` at python/abaqus_functions/odb_io_functions.py:77 and raises KeyError. The docstring at line 25 says None reads the whole instance; the code does that only for the empty name.
- The other broken paths are not modelled as working. These are: python/get_data_from_path.py:37, python/comparison_of_models.py:8 (it imports a name embankment_model/simulations.py does not define), python/embankment_model/add_node_set.py:9, python/stresses_along_embankment.py:43 and python/material_model/evaluate_strain.py:11.
- embankment_model/embankment_model.py: it is wholly CAE geometry and mesh calls.
- Calibration, curve fitting, plotting and reporting scripts: they are optimiser runs and figures over floating point.

## Findings

| source | as written | input that shows it | evidently intended | confidence | as-written member | corrected member |
|---|---|---|---|---|---|---|
| python/abaqus_functions/write_data_for_def_calculation.py:68 | `if idx:` tests the truth of the array of reduced indices, so an explicit value is dropped for the node at reduced index 0 (the array [0] is false) | node labels [5, 7], one node-set condition on node 5, component 1 with value {5: 1.0}: the DOF 0 is prescribed but the value map stays empty, so its value is 0 | `if len(idx):` as in the DOF loop of line 62: the value is recorded for every listed node | not executed | WriteDataForDefCalculation.AsWrittenCounterexample | WriteDataForDefCalculation.IntendedRecordsEveryListedNode |
| python/permanent_strains.py:36-37 | both stress reads use step 'gravity', so the cyclic stress (loading less static) is identically zero, q = 0 and the direction 1.5 s / q divides by zero | any instance holding 'BALLAST' | the second read uses step 'loading' | not executed | PermanentStrains.AsWrittenCyclicIsZero | PermanentStrains.CyclicStressRestoresLoading |
